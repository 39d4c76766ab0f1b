/** The whole life of an edge row: which writes it stands for, when it is closed and when it loses
    its evidence. */
module GraphRows {
  import opened Records
  import opened GraphWriter
  import opened GraphHistory
  import opened GraphOutcome
  import opened GraphPlan

  // ---------- one plan ----------

  /** The row that a message with this id asks for. */
  function Asked(t: Shape, id: string): Edge {
    Edge(t.src, t.dst, t.kind, t.from, None, Some(id))
  }

  /** A row after the closing of a plan, if the plan has one for it. */
  function Settled(e: Edge, plan: seq<Action>, at: string): Edge {
    if e.validTo.None? && e.kind in TASK_EDGES && Finish(e.dst) in plan then e.(validTo := Some(at)) else e
  }

  lemma StatementOnRow(g: Graph, messages: set<string>, branch: string, msg: Message, a: Action, i: int)
    requires Sound(g, messages) && Perform(g, messages, branch, msg, a).Some? && i in g.edges
    ensures var g' := Perform(g, messages, branch, msg, a).value;
            i in g'.edges && g'.edges[i] == Settled(g.edges[i], [a], msg.timestamp)
  {
    assert g.nextId !in g.edges by { assert SoundEdge(g, messages, g.nextId); }
    hide Sound, Clashes, Upserted, KeyOf, UniqueKeys;
    assert forall b :: b in [a] <==> b == a;
    if a.Join? {
      var found := FindEdge(g.edges, KeyOf(EdgeFor(a, msg)));
    }
  }

  lemma SettledTwice(e: Edge, plan: seq<Action>, at: string)
    requires plan != []
    ensures Settled(Settled(e, [plan[0]], at), plan[1..], at) == Settled(e, plan, at)
  {
    assert forall a :: a in plan <==> a in [plan[0]] || a in plan[1..];
  }

  /** A plan changes an old row by closing it at most. */
  lemma {:induction false} PlanOnRow(
      g: Graph, messages: set<string>, branch: string, msg: Message, plan: seq<Action>, i: int)
    requires Sound(g, messages) && (forall a :: a in plan ==> Proper(a, msg))
    requires PerformAll(g, messages, branch, msg, plan).Some? && i in g.edges
    ensures var g' := PerformAll(g, messages, branch, msg, plan).value;
            i in g'.edges && g'.edges[i] == Settled(g.edges[i], plan, msg.timestamp)
    decreases |plan|
  {
    if plan != [] {
      hide Perform, Sound, Proper, Settled;
      PerformKeepsSound(g, messages, branch, msg, plan[0]);
      StatementOnRow(g, messages, branch, msg, plan[0], i);
      PlanOnRow(Perform(g, messages, branch, msg, plan[0]).value, messages, branch, msg, plan[1..], i);
      SettledTwice(g.edges[i], plan, msg.timestamp);
    } else {
      assert Settled(g.edges[i], plan, msg.timestamp) == g.edges[i];
    }
  }

  /** A row that a statement adds. */
  lemma StatementAddsRow(g: Graph, messages: set<string>, branch: string, msg: Message, a: Action, i: int)
    requires Sound(g, messages) && Perform(g, messages, branch, msg, a).Some? && msg.id != ""
    requires i in Perform(g, messages, branch, msg, a).value.edges && i !in g.edges
    ensures a.Join? && Perform(g, messages, branch, msg, a).value.edges[i] == Asked(ShapeOf(EdgeFor(a, msg)), msg.id)
  {
    hide Sound, Clashes, KeyOf, UniqueKeys;
    if a.Join? {
      var found := FindEdge(g.edges, KeyOf(EdgeFor(a, msg)));
    }
  }

  lemma {:induction false} PlanAddsRow(
      g: Graph, messages: set<string>, branch: string, msg: Message, plan: seq<Action>, ids: set<string>, i: int)
    returns (t: Shape)
    requires Sound(g, messages) && (forall a :: a in plan ==> Proper(a, msg)) && Orderly(plan, ids) && msg.id != ""
    requires PerformAll(g, messages, branch, msg, plan).Some?
    requires i in PerformAll(g, messages, branch, msg, plan).value.edges && i !in g.edges
    ensures t in Joins(plan, msg)
    ensures PerformAll(g, messages, branch, msg, plan).value.edges[i] == Settled(Asked(t, msg.id), plan, msg.timestamp)
    decreases |plan|
  {
    var a, rest := plan[0], plan[1..];
    var h := Perform(g, messages, branch, msg, a).value;
    RestIsOrderly(plan, ids);
    hide Perform, Sound, Proper, Settled, Orderly;
    PerformKeepsSound(g, messages, branch, msg, a);
    SplitPlan(plan, msg);
    if i in h.edges {
      StatementAddsRow(g, messages, branch, msg, a, i);
      t := ShapeOf(EdgeFor(a, msg));
      OneStatement(a, msg);
      PlanOnRow(h, messages, branch, msg, rest, i);
      SkipFirst(Asked(t, msg.id), plan, msg.timestamp);
    } else {
      t := PlanAddsRow(h, messages, branch, msg, rest, if a.Touch? then ids + {a.id} else ids, i);
      JoinsMeanMore(rest, msg, t);
      SkipFirst(Asked(t, msg.id), plan, msg.timestamp);
    }
  }

  lemma RestIsOrderly(plan: seq<Action>, ids: set<string>)
    requires plan != [] && Orderly(plan, ids)
    ensures Orderly(plan[1..], if plan[0].Touch? then ids + {plan[0].id} else ids)
    ensures plan[0].Finish? ==> plan[1..] == []
  {
  }

  lemma JoinsMeanMore(plan: seq<Action>, msg: Message, t: Shape)
    requires t in Joins(plan, msg)
    ensures plan != []
  {
  }

  lemma SkipFirst(e: Edge, plan: seq<Action>, at: string)
    requires plan != [] && !plan[0].Finish?
    ensures Settled(e, plan[1..], at) == Settled(e, plan, at)
  {
    assert forall a :: a in plan <==> a == plan[0] || a in plan[1..];
  }

  /** After asking for an edge its row is there, open and with the message as evidence. */
  lemma JoinLeavesRow(g: Graph, messages: set<string>, branch: string, msg: Message, a: Action) returns (i: int)
    requires a.Join? && Sound(g, messages) && msg.id != "" && Perform(g, messages, branch, msg, a).Some?
    ensures var g' := Perform(g, messages, branch, msg, a).value;
            i in g'.edges && g'.edges[i] == Asked(ShapeOf(EdgeFor(a, msg)), msg.id)
  {
    var e := EdgeFor(a, msg);
    var found := FindEdge(g.edges, KeyOf(e));
    if found.Some? {
      i := found.value;
      assert SoundEdge(g, messages, i);
    } else {
      i := g.nextId;
    }
  }

  lemma {:induction false} PlanLeavesRow(
      g: Graph, messages: set<string>, branch: string, msg: Message, plan: seq<Action>, ids: set<string>, t: Shape)
    returns (i: int)
    requires Sound(g, messages) && (forall a :: a in plan ==> Proper(a, msg)) && Orderly(plan, ids) && msg.id != ""
    requires PerformAll(g, messages, branch, msg, plan).Some? && t in Joins(plan, msg)
    ensures var g' := PerformAll(g, messages, branch, msg, plan).value;
            i in g'.edges && g'.edges[i] == Settled(Asked(t, msg.id), plan, msg.timestamp)
    decreases |plan|
  {
    JoinsMeanMore(plan, msg, t);
    var a, rest := plan[0], plan[1..];
    var h := Perform(g, messages, branch, msg, a).value;
    RestIsOrderly(plan, ids);
    hide Perform, Sound, Proper, Settled, Orderly, ShapeOf, EdgeFor, Joins;
    PerformKeepsSound(g, messages, branch, msg, a);
    SplitPlan(plan, msg);
    OneStatement(a, msg);
    if a.Join? && ShapeOf(EdgeFor(a, msg)) == t {
      i := JoinLeavesRow(g, messages, branch, msg, a);
      PlanOnRow(h, messages, branch, msg, rest, i);
    } else {
      JoinsMeanMore(rest, msg, t);
      i := PlanLeavesRow(h, messages, branch, msg, rest, if a.Touch? then ids + {a.id} else ids, t);
    }
    SkipFirst(Asked(t, msg.id), plan, msg.timestamp);
  }

  // ---------- one step ----------

  /** A row after a committed step. */
  function RowAfter(e: Edge, step: Event): Edge {
    if step.Write? then Settled(e, PlanOf(step), step.msg.timestamp) else Detach(e)
  }

  lemma CommitOnRow(s: State, e: Event, s': State, i: int)
    requires Sound(s.graph, s.messages) && Commits(s, e, s') && i in s.graph.edges
    ensures i in s'.graph.edges && s'.graph.edges[i] == RowAfter(s.graph.edges[i], e)
  {
    match e
    case Write(branch, msg, payload) =>
      PlanIsProper(branch, msg, payload);
      hide Sound, Settled, Plan;
      PlanOnRow(s.graph, s.messages, branch, msg, Plan(branch, msg, payload), i);
    case Replace(_) =>
  }

  lemma CommitAddsRow(s: State, e: Event, s': State, i: int) returns (t: Shape)
    requires Sound(s.graph, s.messages) && Commits(s, e, s') && i in s'.graph.edges && i !in s.graph.edges
    ensures e.Write? && t in JoinsOf(e) && s'.graph.edges[i] == RowAfter(Asked(t, e.msg.id), e)
  {
    match e
    case Write(branch, msg, payload) =>
      PlanIsProper(branch, msg, payload);
      PlanIsOrderly(branch, msg, payload);
      hide Sound, Settled, Plan, Orderly;
      t := PlanAddsRow(s.graph, s.messages, branch, msg, Plan(branch, msg, payload), {}, i);
    case Replace(_) =>
      assert false;
  }

  lemma CommitLeavesRow(s: State, e: Event, s': State, t: Shape) returns (i: int)
    requires Sound(s.graph, s.messages) && e.Write? && Commits(s, e, s') && t in JoinsOf(e)
    ensures i in s'.graph.edges && s'.graph.edges[i] == RowAfter(Asked(t, e.msg.id), e)
  {
    PlanIsProper(e.branch, e.msg, e.payload);
    PlanIsOrderly(e.branch, e.msg, e.payload);
    hide Sound, Settled, Plan, Orderly;
    i := PlanLeavesRow(s.graph, s.messages, e.branch, e.msg, PlanOf(e), {}, t);
  }

  // ---------- whole runs ----------

  /** The step closes the open edges of this shape. */
  predicate Closes(e: Event, t: Shape) {
    e.Write? && t.kind in TASK_EDGES && Finish(t.dst) in PlanOf(e)
  }

  /** The instant of the first write from step `k` to before `n` that went through and closes
      edges of this shape, if there is one. */
  function ClosedSince(events: seq<Event>, committed: seq<bool>, t: Shape, k: nat, n: nat): Option<string>
    requires n <= |events| && |committed| == |events|
  {
    if n <= k then None
    else
      var before := ClosedSince(events, committed, t, k, n - 1);
      if before.Some? then before
      else if committed[n - 1] && Closes(events[n - 1], t) then Some(events[n - 1].msg.timestamp)
      else None
  }

  lemma {:induction false} ClosedSplits(
      events: seq<Event>, committed: seq<bool>, t: Shape, k: nat, m: nat, n: nat)
    requires k <= m <= n <= |events| && |committed| == |events|
    ensures ClosedSince(events, committed, t, k, n) ==
            var before := ClosedSince(events, committed, t, k, m);
            if before.Some? then before else ClosedSince(events, committed, t, m, n)
    decreases n
  {
    hide Closes;
    if m < n {
      ClosedSplits(events, committed, t, k, m, n - 1);
    }
  }

  lemma {:induction false} NotClosed(events: seq<Event>, committed: seq<bool>, t: Shape, k: nat, n: nat)
    requires n <= |events| && |committed| == |events|
    requires forall j :: k <= j < n && committed[j] ==> !Closes(events[j], t)
    ensures ClosedSince(events, committed, t, k, n) == None
    decreases n
  {
    hide Closes;
    if k < n {
      NotClosed(events, committed, t, k, n - 1);
    }
  }

  lemma ClosedFirst(events: seq<Event>, committed: seq<bool>, t: Shape, k: nat, m: nat, n: nat)
    requires k <= m < n <= |events| && |committed| == |events| && committed[m] && Closes(events[m], t)
    requires forall j :: k <= j < m && committed[j] ==> !Closes(events[j], t)
    ensures ClosedSince(events, committed, t, k, n) == Some(events[m].msg.timestamp)
  {
    hide Closes;
    NotClosed(events, committed, t, k, m);
    ClosedSplits(events, committed, t, k, m + 1, n);
  }

  /** A row after the steps from `m` to before `n`. */
  ghost function RowSince(e: Edge, events: seq<Event>, committed: seq<bool>, m: nat, n: nat): Edge
    requires n <= |events| && |committed| == |events|
  {
    e.(validTo := if e.validTo.Some? then e.validTo else ClosedSince(events, committed, ShapeOf(e), m, n),
       evidence := if Updated(events, committed, m, n) then None else e.evidence)
  }

  lemma RowSinceStep(e: Edge, events: seq<Event>, committed: seq<bool>, m: nat, n: nat)
    requires m <= n < |events| && |committed| == |events|
    ensures var now := RowSince(e, events, committed, m, n);
            RowSince(e, events, committed, m, n + 1) == if committed[n] then RowAfter(now, events[n]) else now
    ensures RowSince(e, events, committed, m, m) == e
  {
    UpdatedOneMore(events, committed, m, n);
    hide Updated, PlanOf;
  }

  /** MAIN RESULT.  The exact history of an edge: between any two steps of a run it is closed by the
      first committed write in between that closes its task, unless it was closed before; it loses
      its evidence if an update went through in between; and nothing else about it changes. */
  lemma {:induction false} EdgeHistory(
      states: seq<State>, events: seq<Event>, committed: seq<bool>, m: nat, n: nat, i: int)
    requires IsRun(states, events, committed) && m <= n <= |events|
             && |committed| == |events| && |states| == |events| + 1
    requires i in states[m].graph.edges
    ensures i in states[n].graph.edges
    ensures states[n].graph.edges[i] == RowSince(states[m].graph.edges[i], events, committed, m, n)
    decreases n
  {
    hide *;
    if m < n {
      EdgeHistory(states, events, committed, m, n - 1, i);
      AlwaysSound(states, events, committed, n - 1);
      RunStep(states, events, committed, n - 1);
      RowSinceStep(states[m].graph.edges[i], events, committed, m, n - 1);
      if committed[n - 1] {
        CommitOnRow(states[n - 1], events[n - 1], states[n], i);
      }
    } else if n < |events| {
      RowSinceStep(states[m].graph.edges[i], events, committed, m, n);
    } else {
      NothingSince(states[m].graph.edges[i], events, committed, n);
    }
  }

  lemma NothingSince(e: Edge, events: seq<Event>, committed: seq<bool>, n: nat)
    requires n <= |events| && |committed| == |events|
    ensures RowSince(e, events, committed, n, n) == e
  {
  }

  /** The row for shape `t` that write `k` asked for, as it is before step `n`. */
  ghost function RowFor(events: seq<Event>, committed: seq<bool>, k: nat, t: Shape, n: nat): Edge
    requires k < n <= |events| && |committed| == |events| && events[k].Write?
  {
    Asked(t, events[k].msg.id).(
      validTo := ClosedSince(events, committed, t, k, n),
      evidence := if Updated(events, committed, k + 1, n) then None else Some(events[k].msg.id))
  }

  lemma RowForStarts(events: seq<Event>, committed: seq<bool>, k: nat, t: Shape)
    requires k < |events| && |committed| == |events| && events[k].Write? && committed[k]
    ensures RowFor(events, committed, k, t, k + 1) == RowAfter(Asked(t, events[k].msg.id), events[k])
  {
    assert ClosedSince(events, committed, t, k, k) == None;
    hide PlanOf;
  }

  lemma RowForGoesOn(events: seq<Event>, committed: seq<bool>, k: nat, t: Shape, m: nat, n: nat)
    requires k < m <= n <= |events| && |committed| == |events| && events[k].Write?
    ensures RowSince(RowFor(events, committed, k, t, m), events, committed, m, n) == RowFor(events, committed, k, t, n)
  {
    ClosedSplits(events, committed, t, k, m, n);
    UpdatedSplits(events, committed, k + 1, m, n);
    hide Updated, ClosedSince;
  }

  lemma UpdatedSplits(events: seq<Event>, committed: seq<bool>, k: nat, m: nat, n: nat)
    requires k <= m <= n
    ensures Updated(events, committed, k, n) <==> Updated(events, committed, k, m) || Updated(events, committed, m, n)
  {
  }

  /** Every edge that a committed write asked for has its row from then on. */
  lemma WriteHasRow(states: seq<State>, events: seq<Event>, committed: seq<bool>, k: nat, t: Shape) returns (i: int)
    requires IsRun(states, events, committed) && |committed| == |events| && |states| == |events| + 1
    requires Wrote(events, committed, |events|, k) && t in JoinsOf(events[k])
    ensures k < |events| && events[k].Write?
    ensures forall n: nat :: k < n <= |events| ==>
              i in states[n].graph.edges && states[n].graph.edges[i] == RowFor(events, committed, k, t, n)
  {
    AlwaysSound(states, events, committed, k);
    RunStep(states, events, committed, k);
    hide IsRun, Sound, Commits, JoinsOf, RowFor, RowAfter, Updated, ClosedSince;
    i := CommitLeavesRow(states[k], events[k], states[k + 1], t);
    RowForStarts(events, committed, k, t);
    forall n: nat | k < n <= |events|
      ensures i in states[n].graph.edges && states[n].graph.edges[i] == RowFor(events, committed, k, t, n)
    {
      EdgeHistory(states, events, committed, k + 1, n, i);
      RowForGoesOn(events, committed, k, t, k + 1, n);
    }
  }

  /** The row stands for shape `t` of write `k`. */
  ghost predicate StandsFor(e: Edge, events: seq<Event>, committed: seq<bool>, n: nat, k: nat, t: Shape) {
    && |committed| == |events| && Wrote(events, committed, n, k) && t in JoinsOf(events[k])
    && e == RowFor(events, committed, k, t, n)
  }

  /** Every row stands for some committed write. */
  lemma {:induction false} RowStands(
      states: seq<State>, events: seq<Event>, committed: seq<bool>, n: nat, i: int)
    returns (k: nat, t: Shape)
    requires IsRun(states, events, committed) && n <= |events| && |committed| == |events| && |states| == |events| + 1
    requires i in states[n].graph.edges
    ensures StandsFor(states[n].graph.edges[i], events, committed, n, k, t)
    decreases n
  {
    hide *;
    RunShape(states, events, committed);
    if n == 0 {
      StartIsBare();
      assert false;
    } else {
      AlwaysSound(states, events, committed, n - 1);
      RunStep(states, events, committed, n - 1);
      if i in states[n - 1].graph.edges {
        k, t := RowStands(states, events, committed, n - 1, i);
        EdgeHistory(states, events, committed, n - 1, n, i);
        StandsOn(states[n - 1].graph.edges[i], events, committed, k, t, n - 1, n);
      } else {
        t := CommitAddsRow(states[n - 1], events[n - 1], states[n], i);
        k := n - 1;
        StandsNow(states[n].graph.edges[i], events, committed, k, t);
      }
    }
  }

  lemma StartIsBare()
    ensures START.graph.edges == map[]
  {
  }

  lemma StandsOn(e: Edge, events: seq<Event>, committed: seq<bool>, k: nat, t: Shape, m: nat, n: nat)
    requires StandsFor(e, events, committed, m, k, t) && m <= n <= |events|
    ensures StandsFor(RowSince(e, events, committed, m, n), events, committed, n, k, t)
  {
    hide RowFor, RowSince, JoinsOf;
    RowForGoesOn(events, committed, k, t, m, n);
  }

  lemma StandsNow(e: Edge, events: seq<Event>, committed: seq<bool>, k: nat, t: Shape)
    requires k < |events| && |committed| == |events| && committed[k] && events[k].Write? && t in JoinsOf(events[k])
    requires e == RowAfter(Asked(t, events[k].msg.id), events[k])
    ensures StandsFor(e, events, committed, k + 1, k, t)
  {
    hide RowFor, RowAfter, JoinsOf;
    RowForStarts(events, committed, k, t);
  }
}
