/** What a run of graph writes adds up to: which entities and edges there are and when an entity
    was last seen, in closed form and so in any order; and what a terminal message closes. */
module GraphOutcome {
  import opened Text
  import opened Records
  import opened GraphWriter
  import opened GraphHistory

  // ---------- what a plan asks for ----------

  /** The columns of an edge that never change. */
  datatype Shape = Shape(kind: string, src: string, dst: string, from: string)

  function ShapeOf(e: Edge): Shape {
    Shape(e.kind, e.src, e.dst, e.validFrom)
  }

  function Shapes(g: Graph): set<Shape> {
    set i | i in g.edges :: ShapeOf(g.edges[i])
  }

  function Joins(plan: seq<Action>, msg: Message): set<Shape> {
    set a | a in plan && a.Join? :: ShapeOf(EdgeFor(a, msg))
  }

  function Touched(plan: seq<Action>): set<string> {
    set a | a in plan && a.Touch? :: a.id
  }

  function JoinsOf(e: Event): set<Shape>
    requires e.Write?
  {
    Joins(PlanOf(e), e.msg)
  }

  function TouchedBy(e: Event): set<string>
    requires e.Write?
  {
    Touched(PlanOf(e))
  }

  // ---------- one plan ----------

  function Newest(a: string, b: string): string {
    if Less(a, b) then b else a
  }

  /** The entities after seeing `ids` at one instant. */
  ghost predicate SeenAt(g: Graph, g': Graph, ids: set<string>, at: string) {
    && g'.entities.Keys == g.entities.Keys + ids
    && (forall id :: id in g.entities ==>
          g'.entities[id].lastSeen ==
          if id in ids then Newest(g.entities[id].lastSeen, at) else g.entities[id].lastSeen)
    && (forall id :: id in ids && id !in g.entities ==> g'.entities[id].lastSeen == at)
  }

  lemma SeenOn(g: Graph, h: Graph, k: Graph, ids: set<string>, more: set<string>, at: string)
    requires SeenAt(g, h, ids, at) && SeenAt(h, k, more, at)
    ensures SeenAt(g, k, ids + more, at)
  {
    LessIsOrder();
    hide Less;
  }

  lemma OneStatement(a: Action, msg: Message)
    ensures Touched([a]) == if a.Touch? then {a.id} else {}
    ensures Joins([a], msg) == if a.Join? then {ShapeOf(EdgeFor(a, msg))} else {}
  {
    assert a in [a];
  }

  lemma StatementOutcome(g: Graph, messages: set<string>, branch: string, msg: Message, a: Action)
    requires Sound(g, messages) && Proper(a, msg) && Perform(g, messages, branch, msg, a).Some?
    ensures var g' := Perform(g, messages, branch, msg, a).value;
            SeenAt(g, g', Touched([a]), msg.timestamp) && Shapes(g') == Shapes(g) + Joins([a], msg)
  {
    OneStatement(a, msg);
    hide Less, EntityId, Sound, Clashes, Upserted, Linked, Closed, SeenAt, Shapes, ShapeOf, Touched, Joins;
    match a
    case Touch(id, e) => TouchOutcome(g, id, e, msg.timestamp);
    case Join(_, _, _) => JoinShapes(g, messages, branch, EdgeFor(a, msg));
    case Finish(task) => FinishOutcome(g, task, msg.timestamp);
  }

  lemma TouchOutcome(g: Graph, id: string, e: Entity, at: string)
    requires e.lastSeen == at
    ensures SeenAt(g, Upserted(g, id, e), {id}, at) && Shapes(Upserted(g, id, e)) == Shapes(g)
  {
    hide Less;
  }

  lemma FinishOutcome(g: Graph, task: string, at: string)
    requires Closed(g, task, at).Some?
    ensures SeenAt(g, Closed(g, task, at).value, {}, at) && Shapes(Closed(g, task, at).value) == Shapes(g)
  {
    hide Less, UniqueKeys;
    var g' := Closed(g, task, at).value;
    assert forall i :: i in g.edges ==> ShapeOf(g'.edges[i]) == ShapeOf(g.edges[i]);
  }

  lemma JoinShapes(g: Graph, messages: set<string>, branch: string, e: Edge)
    requires Sound(g, messages) && Linked(g, messages, branch, e).Some?
    ensures var g' := Linked(g, messages, branch, e).value;
            Shapes(g') == Shapes(g) + {ShapeOf(e)} && SeenAt(g, g', {}, e.validFrom)
  {
    var g' := Linked(g, messages, branch, e).value;
    assert g.nextId !in g.edges by { assert SoundEdge(g, messages, g.nextId); }
    hide Less, Sound, Shapes;
    var found := FindEdge(g.edges, KeyOf(e));
    if found.Some? {
      assert g'.edges == g.edges;
      ShapesGrow(g, g', found.value, e);
    } else {
      ShapesGrow(g, g', g.nextId, e);
    }
  }

  lemma ShapesGrow(g: Graph, g': Graph, i: int, e: Edge)
    requires g'.edges == g.edges || (i !in g.edges && g'.edges == g.edges[i := e])
    requires i in g'.edges && ShapeOf(g'.edges[i]) == ShapeOf(e)
    ensures Shapes(g') == Shapes(g) + {ShapeOf(e)}
  {
    hide ShapeOf;
    assert ShapeOf(e) in Shapes(g');
    assert forall k :: k in g.edges ==> k in g'.edges && g'.edges[k] == g.edges[k];
  }

  lemma {:induction false} PlanOutcome(
      g: Graph, messages: set<string>, branch: string, msg: Message, plan: seq<Action>)
    requires Sound(g, messages) && (forall a :: a in plan ==> Proper(a, msg))
    requires PerformAll(g, messages, branch, msg, plan).Some?
    ensures var g' := PerformAll(g, messages, branch, msg, plan).value;
            SeenAt(g, g', Touched(plan), msg.timestamp) && Shapes(g') == Shapes(g) + Joins(plan, msg)
    decreases |plan|
  {
    hide Sound, Perform, Proper, Less, Shapes, ShapeOf, EdgeFor;
    if plan != [] {
      var h := Perform(g, messages, branch, msg, plan[0]).value;
      PerformKeepsSound(g, messages, branch, msg, plan[0]);
      StatementOutcome(g, messages, branch, msg, plan[0]);
      PlanOutcome(h, messages, branch, msg, plan[1..]);
      SplitPlan(plan, msg);
      SeenOn(g, h, PerformAll(g, messages, branch, msg, plan).value,
             Touched([plan[0]]), Touched(plan[1..]), msg.timestamp);
    }
  }

  lemma SplitPlan(plan: seq<Action>, msg: Message)
    requires plan != []
    ensures Touched(plan) == Touched([plan[0]]) + Touched(plan[1..])
    ensures Joins(plan, msg) == Joins([plan[0]], msg) + Joins(plan[1..], msg)
  {
    hide ShapeOf, EdgeFor;
    assert forall a :: a in plan <==> a in [plan[0]] || a in plan[1..];
  }

  // ---------- whole runs ----------

  /** Graph write `k` went through, before step `n`. */
  ghost predicate Wrote(events: seq<Event>, committed: seq<bool>, n: nat, k: nat) {
    k < n <= |events| && k < |committed| && committed[k] && events[k].Write?
  }

  ghost predicate Saw(events: seq<Event>, committed: seq<bool>, n: nat, k: nat, id: string) {
    Wrote(events, committed, n, k) && id in TouchedBy(events[k])
  }

  /** The entities are those that committed writes touched, each last seen at the newest
      timestamp of a write that touched it. */
  ghost predicate EntitiesAddUp(g: Graph, events: seq<Event>, committed: seq<bool>, n: nat) {
    && (forall id, k: nat :: Saw(events, committed, n, k, id) ==>
          id in g.entities && !Less(g.entities[id].lastSeen, events[k].msg.timestamp))
    && (forall id :: id in g.entities ==>
          exists k: nat :: Saw(events, committed, n, k, id) && g.entities[id].lastSeen == events[k].msg.timestamp)
  }

  /** The edges are, up to repetition, those that committed writes asked for. */
  ghost predicate EdgesAddUp(g: Graph, events: seq<Event>, committed: seq<bool>, n: nat) {
    && (forall k: nat :: Wrote(events, committed, n, k) ==> JoinsOf(events[k]) <= Shapes(g))
    && (forall t :: t in Shapes(g) ==> exists k: nat :: Wrote(events, committed, n, k) && t in JoinsOf(events[k]))
  }

  /** MAIN RESULT.  In every run, the entities and the shapes of the edges are exactly those that
      committed writes asked for, and last_seen is the newest timestamp. */
  lemma {:induction false} GraphAddsUp(states: seq<State>, events: seq<Event>, committed: seq<bool>, n: nat)
    requires IsRun(states, events, committed) && n < |states|
    ensures EntitiesAddUp(states[n].graph, events, committed, n) && EdgesAddUp(states[n].graph, events, committed, n)
  {
    RunShape(states, events, committed);
    if n > 0 {
      hide *;
      GraphAddsUp(states, events, committed, n - 1);
      AlwaysSound(states, events, committed, n - 1);
      RunStep(states, events, committed, n - 1);
      StepAddsUp(states[n - 1], states[n], events, committed, n);
    }
  }

  lemma StepAddsUp(s: State, s': State, events: seq<Event>, committed: seq<bool>, n: nat)
    requires 0 < n <= |events| && |committed| == |events| && Sound(s.graph, s.messages)
    requires if committed[n - 1] then Commits(s, events[n - 1], s') else s' == s
    requires EntitiesAddUp(s.graph, events, committed, n - 1) && EdgesAddUp(s.graph, events, committed, n - 1)
    ensures EntitiesAddUp(s'.graph, events, committed, n) && EdgesAddUp(s'.graph, events, committed, n)
  {
    hide *;
    if committed[n - 1] && events[n - 1].Write? {
      assert Wrote(events, committed, n, n - 1) by { JustWrote(events, committed, n); }
      WroteOne(s, s', events, committed, n);
      WriteAddsUp(s.graph, s'.graph, events, committed, n);
      WriteAddsEdges(s.graph, s'.graph, events, committed, n);
    } else {
      assert !Wrote(events, committed, n, n - 1) by { JustWrote(events, committed, n); }
      QuietStep(s, s', events, committed, n);
      QuietAddsUp(s.graph, s'.graph, events, committed, n);
      QuietAddsEdges(s.graph, s'.graph, events, committed, n);
    }
  }

  lemma JustWrote(events: seq<Event>, committed: seq<bool>, n: nat)
    requires 0 < n <= |events| && |committed| == |events|
    ensures Wrote(events, committed, n, n - 1) <==> committed[n - 1] && events[n - 1].Write?
  {
  }

  lemma WroteOne(s: State, s': State, events: seq<Event>, committed: seq<bool>, n: nat)
    requires 0 < n <= |events| && |committed| == |events| && Sound(s.graph, s.messages)
    requires Wrote(events, committed, n, n - 1) && Commits(s, events[n - 1], s')
    ensures events[n - 1].Write?
    ensures SeenAt(s.graph, s'.graph, TouchedBy(events[n - 1]), events[n - 1].msg.timestamp)
    ensures Shapes(s'.graph) == Shapes(s.graph) + JoinsOf(events[n - 1])
  {
    hide Sound, Plan, SeenAt, Shapes, Touched, Joins, Proper, PerformAll;
    var e := events[n - 1];
    PlanIsProper(e.branch, e.msg, e.payload);
    PlanOutcome(s.graph, s.messages, e.branch, e.msg, Plan(e.branch, e.msg, e.payload));
  }

  lemma QuietStep(s: State, s': State, events: seq<Event>, committed: seq<bool>, n: nat)
    requires 0 < n <= |events| && |committed| == |events| && !Wrote(events, committed, n, n - 1)
    requires if committed[n - 1] then Commits(s, events[n - 1], s') else s' == s
    ensures s'.graph.entities == s.graph.entities && Shapes(s'.graph) == Shapes(s.graph)
  {
    if committed[n - 1] {
      assert s'.graph == Detached(s.graph);
      assert forall i :: i in s.graph.edges ==> ShapeOf(s'.graph.edges[i]) == ShapeOf(s.graph.edges[i]);
    }
  }

  lemma WriteAddsUp(g: Graph, g': Graph, events: seq<Event>, committed: seq<bool>, n: nat)
    requires 0 < n <= |events| && Wrote(events, committed, n, n - 1)
    requires EntitiesAddUp(g, events, committed, n - 1)
    requires SeenAt(g, g', TouchedBy(events[n - 1]), events[n - 1].msg.timestamp)
    ensures EntitiesAddUp(g', events, committed, n)
  {
    LessIsOrder();
    hide Less, TouchedBy;
    var e := events[n - 1];
    forall id, k: nat | Saw(events, committed, n, k, id)
      ensures id in g'.entities && !Less(g'.entities[id].lastSeen, events[k].msg.timestamp)
    {
      assert k < n - 1 ==> Saw(events, committed, n - 1, k, id);
    }
    forall id | id in g'.entities
      ensures exists k: nat :: Saw(events, committed, n, k, id) && g'.entities[id].lastSeen == events[k].msg.timestamp
    {
      if id in TouchedBy(e) && g'.entities[id].lastSeen == e.msg.timestamp {
        assert Saw(events, committed, n, n - 1, id);
      } else {
        var k: nat :| Saw(events, committed, n - 1, k, id) && g.entities[id].lastSeen == events[k].msg.timestamp;
        assert Saw(events, committed, n, k, id);
      }
    }
  }

  lemma WriteAddsEdges(g: Graph, g': Graph, events: seq<Event>, committed: seq<bool>, n: nat)
    requires 0 < n <= |events| && Wrote(events, committed, n, n - 1)
    requires EdgesAddUp(g, events, committed, n - 1)
    requires Shapes(g') == Shapes(g) + JoinsOf(events[n - 1])
    ensures EdgesAddUp(g', events, committed, n)
  {
    hide Shapes, JoinsOf;
    forall k: nat | Wrote(events, committed, n, k) ensures JoinsOf(events[k]) <= Shapes(g') {
      assert k < n - 1 ==> Wrote(events, committed, n - 1, k);
    }
    forall t | t in Shapes(g') ensures exists k: nat :: Wrote(events, committed, n, k) && t in JoinsOf(events[k]) {
      if t in Shapes(g) {
        var k: nat :| Wrote(events, committed, n - 1, k) && t in JoinsOf(events[k]);
        assert Wrote(events, committed, n, k);
      }
    }
  }

  lemma QuietAddsUp(g: Graph, g': Graph, events: seq<Event>, committed: seq<bool>, n: nat)
    requires 0 < n <= |events| && !Wrote(events, committed, n, n - 1) && g'.entities == g.entities
    requires EntitiesAddUp(g, events, committed, n - 1)
    ensures EntitiesAddUp(g', events, committed, n)
  {
    hide Less, TouchedBy;
    assert forall id, k: nat :: Saw(events, committed, n, k, id) ==> Saw(events, committed, n - 1, k, id);
    forall id | id in g'.entities
      ensures exists k: nat :: Saw(events, committed, n, k, id) && g'.entities[id].lastSeen == events[k].msg.timestamp
    {
      var k: nat :| Saw(events, committed, n - 1, k, id) && g.entities[id].lastSeen == events[k].msg.timestamp;
      assert Saw(events, committed, n, k, id);
    }
  }

  lemma QuietAddsEdges(g: Graph, g': Graph, events: seq<Event>, committed: seq<bool>, n: nat)
    requires 0 < n <= |events| && !Wrote(events, committed, n, n - 1) && Shapes(g') == Shapes(g)
    requires EdgesAddUp(g, events, committed, n - 1)
    ensures EdgesAddUp(g', events, committed, n)
  {
    hide Shapes, JoinsOf;
    assert forall k: nat :: Wrote(events, committed, n, k) ==> Wrote(events, committed, n - 1, k);
    forall t | t in Shapes(g') ensures exists k: nat :: Wrote(events, committed, n, k) && t in JoinsOf(events[k]) {
      var k: nat :| Wrote(events, committed, n - 1, k) && t in JoinsOf(events[k]);
      assert Wrote(events, committed, n, k);
    }
  }

  /** The graph writes that went through. */
  ghost function Written(events: seq<Event>, committed: seq<bool>): set<Event>
    requires |committed| == |events|
  {
    set k | 0 <= k < |events| && committed[k] && events[k].Write? :: events[k]
  }

  /** MAIN RESULT.  Order does not matter: two runs in which the same writes went through, in any
      order, any number of times, and between any updates, end with the same entities, the same
      last sightings, and edges of the same shapes. */
  lemma OrderIsImmaterial(
      states: seq<State>, events: seq<Event>, committed: seq<bool>,
      states': seq<State>, events': seq<Event>, committed': seq<bool>)
    requires IsRun(states, events, committed) && IsRun(states', events', committed')
    requires |events| == |committed| && |events'| == |committed'| && |states| > 0 && |states'| > 0
    requires Written(events, committed) == Written(events', committed')
    ensures var g, g' := states[|states| - 1].graph, states'[|states'| - 1].graph;
            && g.entities.Keys == g'.entities.Keys && Shapes(g) == Shapes(g')
            && forall id :: id in g.entities ==> g.entities[id].lastSeen == g'.entities[id].lastSeen
  {
    RunShape(states, events, committed);
    RunShape(states', events', committed');
    hide *;
    GraphAddsUp(states, events, committed, |events|);
    GraphAddsUp(states', events', committed', |events'|);
    SameSum(states[|events|].graph, events, committed, states'[|events'|].graph, events', committed');
  }

  lemma SameSum(
      g: Graph, events: seq<Event>, committed: seq<bool>, g': Graph, events': seq<Event>, committed': seq<bool>)
    requires |events| == |committed| && |events'| == |committed'|
    requires Written(events, committed) == Written(events', committed')
    requires EntitiesAddUp(g, events, committed, |events|) && EntitiesAddUp(g', events', committed', |events'|)
    requires EdgesAddUp(g, events, committed, |events|) && EdgesAddUp(g', events', committed', |events'|)
    ensures g.entities.Keys == g'.entities.Keys && Shapes(g) == Shapes(g')
    ensures forall id :: id in g.entities ==> g.entities[id].lastSeen == g'.entities[id].lastSeen
  {
    hide *;
    EntitiesCarryOver(g, events, committed, g', events', committed');
    EntitiesCarryOver(g', events', committed', g, events, committed);
    EdgesCarryOver(g, events, committed, g', events', committed');
    EdgesCarryOver(g', events', committed', g, events, committed);
    forall id | id in g.entities ensures g.entities[id].lastSeen == g'.entities[id].lastSeen {
      LessTotal(g.entities[id].lastSeen, g'.entities[id].lastSeen);
    }
  }

  lemma SameWrite(events: seq<Event>, committed: seq<bool>, k: nat, events': seq<Event>, committed': seq<bool>)
    returns (k': nat)
    requires |events| == |committed| && |events'| == |committed'|
    requires Written(events, committed) <= Written(events', committed') && Wrote(events, committed, |events|, k)
    ensures Wrote(events', committed', |events'|, k') && events'[k'] == events[k]
  {
    assert events[k] in Written(events, committed);
    k' :| k' < |events'| && committed'[k'] && events'[k'].Write? && events'[k'] == events[k];
  }

  lemma EntitiesCarryOver(
      g: Graph, events: seq<Event>, committed: seq<bool>, g': Graph, events': seq<Event>, committed': seq<bool>)
    requires |events| == |committed| && |events'| == |committed'|
    requires Written(events, committed) <= Written(events', committed')
    requires EntitiesAddUp(g, events, committed, |events|) && EntitiesAddUp(g', events', committed', |events'|)
    ensures forall id :: id in g.entities ==>
              id in g'.entities && !Less(g'.entities[id].lastSeen, g.entities[id].lastSeen)
  {
    hide Less, Written, TouchedBy;
    forall id | id in g.entities
      ensures id in g'.entities && !Less(g'.entities[id].lastSeen, g.entities[id].lastSeen)
    {
      var k: nat :| Saw(events, committed, |events|, k, id) && g.entities[id].lastSeen == events[k].msg.timestamp;
      var k' := SameWrite(events, committed, k, events', committed');
      assert Saw(events', committed', |events'|, k', id);
    }
  }

  lemma EdgesCarryOver(
      g: Graph, events: seq<Event>, committed: seq<bool>, g': Graph, events': seq<Event>, committed': seq<bool>)
    requires |events| == |committed| && |events'| == |committed'|
    requires Written(events, committed) <= Written(events', committed')
    requires EdgesAddUp(g, events, committed, |events|) && EdgesAddUp(g', events', committed', |events'|)
    ensures Shapes(g) <= Shapes(g')
  {
    hide Written, JoinsOf, Shapes;
    forall t | t in Shapes(g) ensures t in Shapes(g') {
      var k: nat :| Wrote(events, committed, |events|, k) && t in JoinsOf(events[k]);
      var k' := SameWrite(events, committed, k, events', committed');
    }
  }

  // ---------- what a terminal message closes ----------

  /** An open sent, responded or delegated_to edge into `task`. */
  ghost predicate OpenInto(g: Graph, task: string, i: int) {
    i in g.edges && g.edges[i].dst == task && g.edges[i].validTo.None? && g.edges[i].kind in TASK_EDGES
  }

  ghost predicate NoneOpen(g: Graph, task: string) {
    forall i :: !OpenInto(g, task, i)
  }

  /** The task that a terminal response or status names. */
  function EndedTask(branch: string, payload: Payload): Option<string> {
    if branch == "responses" && payload.response.Some?
       && !Blank(payload.response.value.taskId) && IsTerminal(payload.response.value.status) then
      Some(EntityId("task", payload.response.value.taskId))
    else if branch == "tasks.status" && payload.status.Some?
       && !Blank(payload.status.value.taskId) && IsTerminal(payload.status.value.status) then
      Some(EntityId("task", payload.status.value.taskId))
    else None
  }

  /** A response is attributed to somebody; a status need not be. */
  predicate Attributed(branch: string, msg: Message, payload: Payload) {
    branch == "responses" && payload.response.Some? ==>
      FirstNonEmpty(payload.response.value.responderId, msg.sender) != ""
  }

  lemma FinishCloses(g: Graph, task: string, at: string)
    requires Closed(g, task, at).Some?
    ensures NoneOpen(Closed(g, task, at).value, task)
  {
    hide UniqueKeys;
    var g' := Closed(g, task, at).value;
    forall i ensures !OpenInto(g', task, i) {
      if i in g.edges {
        assert g'.edges[i] == ClosedEdge(g.edges[i], task, at);
      }
    }
  }

  /** A plan that ends by finishing a task leaves none of its edges open. */
  lemma EndingCloses(
      g: Graph, messages: set<string>, branch: string, msg: Message, plan: seq<Action>, task: string)
    requires PerformAll(g, messages, branch, msg, plan + [Finish(task)]).Some?
    ensures NoneOpen(PerformAll(g, messages, branch, msg, plan + [Finish(task)]).value, task)
  {
    PerformSplits(g, messages, branch, msg, plan, [Finish(task)]);
    var h := PerformAll(g, messages, branch, msg, plan).value;
    PerformOne(h, messages, branch, msg, Finish(task));
    hide PerformAll, Closed, NoneOpen;
    FinishCloses(h, task, msg.timestamp);
  }

  /** Neither a task edge nor a closing. */
  ghost predicate Idle(a: Action) {
    !a.Finish? && (a.Join? ==> a.kind !in TASK_EDGES)
  }

  /** A plan without task edges and closings leaves the open task edges as they were. */
  lemma {:induction false} IdlePlan(
      g: Graph, messages: set<string>, branch: string, msg: Message, plan: seq<Action>, task: string)
    requires Sound(g, messages) && (forall a :: a in plan ==> Proper(a, msg))
    requires forall a :: a in plan ==> Idle(a)
    requires PerformAll(g, messages, branch, msg, plan).Some?
    ensures NoneOpen(PerformAll(g, messages, branch, msg, plan).value, task) <==> NoneOpen(g, task)
    decreases |plan|
  {
    hide Sound, Perform, Proper, NoneOpen, Idle;
    if plan != [] {
      var h := Perform(g, messages, branch, msg, plan[0]).value;
      PerformKeepsSound(g, messages, branch, msg, plan[0]);
      IdleStatement(g, messages, branch, msg, plan[0], task);
      IdlePlan(h, messages, branch, msg, plan[1..], task);
    }
  }

  lemma IdleStatement(g: Graph, messages: set<string>, branch: string, msg: Message, a: Action, task: string)
    requires Sound(g, messages) && Idle(a)
    requires Perform(g, messages, branch, msg, a).Some?
    ensures NoneOpen(Perform(g, messages, branch, msg, a).value, task) <==> NoneOpen(g, task)
  {
    var g' := Perform(g, messages, branch, msg, a).value;
    assert g.nextId !in g.edges by { assert SoundEdge(g, messages, g.nextId); }
    if a.Join? {
      LinkedCases(g, messages, branch, EdgeFor(a, msg));
    }
    hide Sound, Perform, Linked;
    assert forall i :: OpenInto(g', task, i) <==> OpenInto(g, task, i);
  }

  /** MAIN RESULT.  Right after a committed terminal response or status for a task, no sent,
      responded or delegated_to edge into the task is open, if and only if the message is
      attributed to somebody or none was open before: a terminal response that names neither a
      responder nor a sender closes nothing. */
  lemma TerminalCloses(s: State, e: Event, s': State)
    requires Sound(s.graph, s.messages) && Commits(s, e, s') && e.Write? && EndedTask(e.branch, e.payload).Some?
    ensures var task := EndedTask(e.branch, e.payload).value;
            NoneOpen(s'.graph, task) <==> Attributed(e.branch, e.msg, e.payload) || NoneOpen(s.graph, task)
  {
    CommitIsPlan(s, e, s');
    hide *;
    if Attributed(e.branch, e.msg, e.payload) {
      EndsWithFinish(e);
      AttributedCloses(s, e, s', EndedTask(e.branch, e.payload).value);
    } else {
      NothingToFinish(e);
      IdlePlan(s.graph, s.messages, e.branch, e.msg, PlanOf(e), EndedTask(e.branch, e.payload).value);
    }
  }

  lemma AttributedCloses(s: State, e: Event, s': State, task: string)
    requires e.Write? && PerformAll(s.graph, s.messages, e.branch, e.msg, PlanOf(e)) == Some(s'.graph)
    requires |PlanOf(e)| > 0 && PlanOf(e)[|PlanOf(e)| - 1] == Finish(task)
    ensures NoneOpen(s'.graph, task)
  {
    hide *;
    var front := PlanOf(e)[..|PlanOf(e)| - 1];
    assert PlanOf(e) == front + [Finish(task)];
    EndingCloses(s.graph, s.messages, e.branch, e.msg, front, task);
  }

  lemma CommitIsPlan(s: State, e: Event, s': State)
    requires Commits(s, e, s') && e.Write?
    ensures e.msg.timestamp != "" && PerformAll(s.graph, s.messages, e.branch, e.msg, PlanOf(e)) == Some(s'.graph)
  {
  }

  lemma EndsWithFinish(e: Event)
    requires e.Write? && EndedTask(e.branch, e.payload).Some? && Attributed(e.branch, e.msg, e.payload)
    ensures var plan := PlanOf(e);
            |plan| > 0 && plan[|plan| - 1] == Finish(EndedTask(e.branch, e.payload).value)
  {
    hide Blank, FirstNonEmpty, EntityId, IsTerminal, FallbackId;
  }

  lemma NothingToFinish(e: Event)
    requires e.Write? && e.msg.timestamp != ""
    requires EndedTask(e.branch, e.payload).Some? && !Attributed(e.branch, e.msg, e.payload)
    ensures forall a :: a in PlanOf(e) ==> Proper(a, e.msg) && Idle(a)
  {
    PlanIsProper(e.branch, e.msg, e.payload);
    var p := e.payload.response.value;
    assert BranchPlan(e.branch, e.msg, e.payload) ==
           [Seen("task", p.taskId, p.taskId, e.msg.timestamp, map["status" := p.status])];
    hide BranchPlan, Proper, EndedTask, Attributed;
    FrontIsIdle(e.branch, e.msg, e.payload);
  }

  /** The statements every message leads to touch no task edge. */
  lemma FrontIsIdle(branch: string, msg: Message, payload: Payload)
    ensures forall a :: a in Plan(branch, msg, payload) ==> Idle(a) || a in BranchPlan(branch, msg, payload)
  {
    hide BranchPlan, EntityId, FallbackId, Blank;
  }
}
