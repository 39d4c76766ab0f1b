/** When the graph write of a message goes through, and runs in which it does not. */
module GraphCommits {
  import opened Records
  import opened GraphWriter
  import opened GraphHistory
  import opened GraphOutcome
  import opened GraphPlan
  import opened GraphRows
  import opened GraphWedge

  // ---------- statements that close nothing ----------

  lemma OpenStatement(g: Graph, messages: set<string>, branch: string, msg: Message, a: Action, ids: set<string>)
    requires Sound(g, messages) && Proper(a, msg) && !a.Finish? && ids <= g.entities.Keys
    requires a.Join? ==> a.src in ids && a.dst in ids
    requires msg.id in messages
    ensures Perform(g, messages, branch, msg, a).Some?
  {
    hide Sound, Proper, Clashes, Upserted, KeyOf;
    if a.Touch? {
      TouchNeverClashes(g, messages, a, msg);
    }
  }

  lemma StatementKeepsIds(g: Graph, h: Graph, a: Action, msg: Message)
    requires SeenAt(g, h, Touched([a]), msg.timestamp)
    ensures h.entities.Keys == g.entities.Keys + Touched([a])
  {
  }

  lemma {:induction false} OpenPlan(
      g: Graph, messages: set<string>, branch: string, msg: Message, plan: seq<Action>, ids: set<string>)
    requires Sound(g, messages) && (forall a :: a in plan ==> Proper(a, msg)) && Open(plan)
    requires Orderly(plan, ids) && ids <= g.entities.Keys && msg.id in messages
    ensures PerformAll(g, messages, branch, msg, plan).Some?
    decreases |plan|
  {
    hide Sound, Perform, Proper, Shapes, SeenAt, Joins, Touched;
    if plan != [] {
      var a, rest := plan[0], plan[1..];
      OneStatement(a, msg);
      OpenStatement(g, messages, branch, msg, a, ids);
      PerformKeepsSound(g, messages, branch, msg, a);
      StatementOutcome(g, messages, branch, msg, a);
      var h := Perform(g, messages, branch, msg, a).value;
      StatementKeepsIds(g, h, a, msg);
      OpenPlan(h, messages, branch, msg, rest, if a.Touch? then ids + {a.id} else ids);
    }
  }

  // ---------- the closing ----------

  lemma {:induction false} ClosingIsLast(plan: seq<Action>, ids: set<string>)
    requires Orderly(plan, ids) && !Open(plan)
    ensures plan != []
    ensures var n := |plan| - 1; plan[n].Finish? && Open(plan[..n]) && Orderly(plan[..n], ids)
    decreases |plan|
  {
    if |plan| == 1 {
      assert plan[..0] == [];
    } else {
      var rest := plan[1..];
      assert forall a :: a in plan <==> a == plan[0] || a in rest;
      ClosingIsLast(rest, if plan[0].Touch? then ids + {plan[0].id} else ids);
      var front := plan[..|plan| - 1];
      assert front[1..] == rest[..|rest| - 1] && front[0] == plan[0];
      assert forall a :: a in front <==> a == front[0] || a in front[1..];
    }
  }

  /** A row closed at `at`, and an open one that would become the same. */
  ghost predicate JamPair(g: Graph, task: string, at: string, i: int, j: int) {
    && i in g.edges && j in g.edges && g.edges[i].dst == task && g.edges[i].kind in TASK_EDGES
    && g.edges[i].validTo == Some(at) && g.edges[j] == g.edges[i].(validTo := None)
  }

  lemma ClosedKeys(g: Graph, messages: set<string>, task: string, at: string, i: int, j: int)
    requires Sound(g, messages) && at != "" && i in g.edges && j in g.edges && i != j
    ensures KeyOf(ClosedEdge(g.edges[i], task, at)) == KeyOf(ClosedEdge(g.edges[j], task, at)) <==>
              JamPair(g, task, at, i, j) || JamPair(g, task, at, j, i)
  {
    assert SoundEdge(g, messages, i) && SoundEdge(g, messages, j);
    UniqueRows(g, messages, i, j);
  }

  lemma ClosedIff(g: Graph, messages: set<string>, task: string, at: string)
    requires Sound(g, messages) && at != ""
    ensures Closed(g, task, at).Some? <==> !exists i, j :: JamPair(g, task, at, i, j)
  {
    var c := ClosedEdges(g.edges, task, at);
    forall i, j | i in g.edges && j in g.edges && i != j
      ensures KeyOf(c[i]) == KeyOf(c[j]) <==> JamPair(g, task, at, i, j) || JamPair(g, task, at, j, i)
    {
      ClosedKeys(g, messages, task, at, i, j);
    }
    hide Sound, KeyOf, ClosedEdges;
    if i, j :| JamPair(g, task, at, i, j) {
      assert i != j;
      assert KeyOf(c[i]) == KeyOf(c[j]);
    }
    if !UniqueKeys(c) {
      var i, j :| i in c && j in c && KeyOf(c[i]) == KeyOf(c[j]) && i != j;
      assert JamPair(g, task, at, i, j) || JamPair(g, task, at, j, i);
    }
  }

  /** The write would close an edge that then agrees with one closed at the same instant before;
      the edge to close is there already, or is one that the write asks for. */
  ghost predicate JamsOn(g: Graph, e: Event, i: int)
    requires e.Write?
  {
    && i in g.edges && Closes(e, ShapeOf(g.edges[i])) && g.edges[i].validTo == Some(e.msg.timestamp)
    && ((exists j :: j in g.edges && g.edges[j] == g.edges[i].(validTo := None))
        || (ShapeOf(g.edges[i]) in JoinsOf(e) && g.edges[i].evidence == Some(e.msg.id)))
  }

  ghost predicate ClosingCollides(g: Graph, e: Event)
    requires e.Write?
  {
    exists i :: JamsOn(g, e, i)
  }

  // ---------- the exact condition ----------

  /** The rows after the statements before the closing: the old ones as they were, and one for each
      edge asked for. */
  ghost predicate RowsAdded(g: Graph, h: Graph, shapes: set<Shape>, id: string) {
    && (forall i :: i in g.edges ==> i in h.edges && h.edges[i] == g.edges[i])
    && (forall i :: i in h.edges && i !in g.edges ==> exists t :: t in shapes && h.edges[i] == Asked(t, id))
    && (forall t :: t in shapes ==> exists i :: i in h.edges && h.edges[i] == Asked(t, id))
  }

  lemma OpenPlanAdds(
      g: Graph, messages: set<string>, branch: string, msg: Message, plan: seq<Action>, ids: set<string>)
    requires Sound(g, messages) && (forall a :: a in plan ==> Proper(a, msg)) && Open(plan) && Orderly(plan, ids)
    requires PerformAll(g, messages, branch, msg, plan).Some? && msg.id != ""
    ensures RowsAdded(g, PerformAll(g, messages, branch, msg, plan).value, Joins(plan, msg), msg.id)
  {
    var h := PerformAll(g, messages, branch, msg, plan).value;
    assert forall e :: Settled(e, plan, msg.timestamp) == e;
    hide Sound, Proper, Settled, Orderly, PerformAll, Joins, Open;
    forall i | i in g.edges ensures i in h.edges && h.edges[i] == g.edges[i] {
      PlanOnRow(g, messages, branch, msg, plan, i);
    }
    forall i | i in h.edges && i !in g.edges
      ensures exists t :: t in Joins(plan, msg) && h.edges[i] == Asked(t, msg.id)
    {
      var t := PlanAddsRow(g, messages, branch, msg, plan, ids, i);
    }
    forall t | t in Joins(plan, msg) ensures exists i :: i in h.edges && h.edges[i] == Asked(t, msg.id) {
      var i := PlanLeavesRow(g, messages, branch, msg, plan, ids, t);
    }
  }

  /** What jams the closing after the statements before it. */
  lemma JamsBefore(g: Graph, h: Graph, e: Event, task: string)
    requires e.Write? && RowsAdded(g, h, JoinsOf(e), e.msg.id)
    requires forall t: Shape :: Closes(e, t) <==> t.kind in TASK_EDGES && t.dst == task
    ensures ClosingCollides(g, e) <==> exists i, j :: JamPair(h, task, e.msg.timestamp, i, j)
  {
    hide Closes, JoinsOf;
    var at := e.msg.timestamp;
    if i :| JamsOn(g, e, i) {
      if j :| j in g.edges && g.edges[j] == g.edges[i].(validTo := None) {
        assert JamPair(h, task, at, i, j);
      } else {
        var t := ShapeOf(g.edges[i]);
        var j :| j in h.edges && h.edges[j] == Asked(t, e.msg.id);
        assert JamPair(h, task, at, i, j);
      }
    }
    if i, j :| JamPair(h, task, at, i, j) {
      assert i in g.edges;
      assert Closes(e, ShapeOf(g.edges[i]));
      if j !in g.edges {
        var t :| t in JoinsOf(e) && h.edges[j] == Asked(t, e.msg.id);
        assert t == ShapeOf(g.edges[i]);
      }
      assert JamsOn(g, e, i);
    }
  }

  lemma ClosesOne(e: Event)
    requires e.Write? && |PlanOf(e)| > 0
    requires PlanOf(e)[|PlanOf(e)| - 1].Finish? && Open(PlanOf(e)[..|PlanOf(e)| - 1])
    ensures var task := PlanOf(e)[|PlanOf(e)| - 1].task;
            forall t: Shape :: Closes(e, t) <==> t.kind in TASK_EDGES && t.dst == task
    ensures JoinsOf(e) == Joins(PlanOf(e)[..|PlanOf(e)| - 1], e.msg)
  {
    var plan := PlanOf(e);
    var front, last := plan[..|plan| - 1], plan[|plan| - 1];
    assert plan == front + [last];
    hide PlanOf, EdgeFor, ShapeOf;
    assert forall a :: a in plan <==> a in front || a == last;
  }

  lemma ClosesNothing(g: Graph, e: Event)
    requires e.Write? && Open(PlanOf(e))
    ensures !ClosingCollides(g, e)
  {
    hide PlanOf, JoinsOf;
  }

  lemma PlanGoesIff(g: Graph, messages: set<string>, e: Event)
    requires Sound(g, messages) && e.Write? && e.msg.timestamp != "" && e.msg.id != "" && e.msg.id in messages
    ensures PerformAll(g, messages, e.branch, e.msg, PlanOf(e)).Some? <==> !ClosingCollides(g, e)
  {
    hide *;
    ProperAndOrderly(e);
    var plan := PlanOf(e);
    if Open(plan) {
      OpenPlan(g, messages, e.branch, e.msg, plan, {});
      ClosesNothing(g, e);
    } else {
      ClosingIsLast(plan, {});
      var front, last := plan[..|plan| - 1], plan[|plan| - 1];
      assert plan == front + [last];
      OpenPlan(g, messages, e.branch, e.msg, front, {});
      var h := PerformAll(g, messages, e.branch, e.msg, front).value;
      PerformAllKeepsSound(g, messages, e.branch, e.msg, front);
      PerformSplits(g, messages, e.branch, e.msg, front, [last]);
      PerformOne(h, messages, e.branch, e.msg, last);
      FinishIsClosed(h, messages, e.branch, e.msg, last.task);
      ClosedIff(h, messages, last.task, e.msg.timestamp);
      OpenPlanAdds(g, messages, e.branch, e.msg, front, {});
      ClosesOne(e);
      JamsBefore(g, h, e, last.task);
    }
  }

  lemma ProperAndOrderly(e: Event)
    requires e.Write? && e.msg.timestamp != ""
    ensures Orderly(PlanOf(e), {}) && forall a :: a in PlanOf(e) ==> Proper(a, e.msg)
  {
    PlanIsProper(e.branch, e.msg, e.payload);
    PlanIsOrderly(e.branch, e.msg, e.payload);
    hide Plan, Orderly, Proper;
  }

  lemma WriteIsPlan(s: State, e: Event)
    requires e.Write? && e.msg.timestamp != "" && e.msg.id != ""
    ensures CanCommit(s, e) <==> PerformAll(s.graph, s.messages, e.branch, e.msg, PlanOf(e)).Some?
  {
    hide PerformAll, Plan;
    var g := PerformAll(s.graph, s.messages, e.branch, e.msg, PlanOf(e));
    if g.Some? {
      assert Commits(s, e, s.(graph := g.value));
    }
  }

  /** A committed write's message is in the message table, whatever else there is. */
  lemma CommittedIsRetained(s: State, e: Event, s': State)
    requires Sound(s.graph, s.messages) && e.Write? && Commits(s, e, s')
    ensures e.msg.id in s.messages
  {
    hide *;
    MentionIsLasting(e);
    var i := CommitLeavesRow(s, e, s', Mention(e.msg));
    CommitKeepsSound(s, e, s');
    RowIsRetained(s, e, s', Mention(e.msg), i);
  }

  lemma RowIsRetained(s: State, e: Event, s': State, t: Shape, i: int)
    requires e.Write? && Commits(s, e, s') && Sound(s'.graph, s'.messages) && i in s'.graph.edges
    requires s'.graph.edges[i] == RowAfter(Asked(t, e.msg.id), e)
    ensures e.msg.id in s.messages
  {
    hide PerformAll, Plan;
    assert SoundEdge(s'.graph, s'.messages, i);
  }

  lemma UnretainedIsRefused(s: State, e: Event)
    requires Sound(s.graph, s.messages) && e.Write? && e.msg.id !in s.messages
    ensures !CanCommit(s, e)
  {
    hide *;
    if CanCommit(s, e) {
      var s' := Next(s, e);
      CommittedIsRetained(s, e, s');
    }
  }

  /** MAIN RESULT.  In every state that a run can reach, a graph write goes through if and only if its
      message is still in the message table and its closing jams on no edge closed at the same
      instant before. */
  lemma WriteCommitsIff(s: State, e: Event)
    requires Sound(s.graph, s.messages) && e.Write? && e.msg.timestamp != "" && e.msg.id != ""
    ensures CanCommit(s, e) <==> e.msg.id in s.messages && !ClosingCollides(s.graph, e)
  {
    hide *;
    WriteIsPlan(s, e);
    if e.msg.id in s.messages {
      PlanGoesIff(s.graph, s.messages, e);
    } else {
      UnretainedIsRefused(s, e);
    }
  }

  /** A graph write that closes nothing goes through if and only if its message is retained,
      whatever edges there are. */
  lemma OpenWriteCommits(s: State, e: Event)
    requires Sound(s.graph, s.messages) && e.Write? && e.msg.timestamp != "" && e.msg.id != ""
    requires Open(PlanOf(e))
    ensures CanCommit(s, e) <==> e.msg.id in s.messages
  {
    hide *;
    WriteCommitsIff(s, e);
    ClosesNothing(s.graph, e);
  }

  lemma Next(s: State, e: Event) returns (s': State)
    requires CanCommit(s, e)
    ensures Commits(s, e, s')
  {
    hide Commits;
    s' :| Commits(s, e, s');
  }
}
