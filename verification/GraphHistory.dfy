/** What the graph keeps over every run of graph writes and snapshot updates, in any order and
    with any transaction allowed to fail. */
module GraphHistory {
  import opened Text
  import opened Records
  import opened GraphWriter

  // ---------- the steps ----------

  datatype Event =
    | Write(branch: string, msg: Message, payload: Payload)  // the graph transaction of one message
    // a snapshot update: message rows are deleted and re-inserted
    | Replace(messages: set<string>)

  datatype State = State(graph: Graph, messages: set<string>)

  const START := State(EMPTY_GRAPH, {})

  /** Deleting the message rows clears every reference to them. */
  function Detach(e: Edge): Edge {
    e.(evidence := None)
  }

  function Detached(g: Graph): Graph {
    g.(edges := map i | i in g.edges :: Detach(g.edges[i]))
  }

  /** Two rows that agree on everything the unique index covers, except the evidence. */
  ghost predicate Twins(g: Graph) {
    !UniqueKeys(Detached(g).edges)
  }

  function PlanOf(e: Event): seq<Action>
    requires e.Write?
  {
    Plan(e.branch, e.msg, e.payload)
  }

  /** A committed step.  Timestamps are formatted instants and record ids hold colons, so neither
      is ever empty. */
  ghost predicate Commits(s: State, e: Event, s': State) {
    match e
    case Write(branch, msg, payload) =>
      var g := PerformAll(s.graph, s.messages, branch, msg, Plan(branch, msg, payload));
      msg.timestamp != "" && msg.id != "" && g.Some? && s' == s.(graph := g.value)
    case Replace(messages) => !Twins(s.graph) && s' == State(Detached(s.graph), messages)
  }

  /** `committed[i]` says whether transaction `i` went through; a transaction that would break a
      constraint cannot. */
  ghost predicate IsRun(states: seq<State>, events: seq<Event>, committed: seq<bool>) {
    && |states| == |events| + 1 && |committed| == |events| && states[0] == START
    && forall i :: 0 <= i < |events| ==>
         if committed[i] then Commits(states[i], events[i], states[i + 1]) else states[i + 1] == states[i]
  }

  lemma RunStep(states: seq<State>, events: seq<Event>, committed: seq<bool>, i: nat)
    requires IsRun(states, events, committed) && i < |events|
    ensures |states| == |events| + 1 && |committed| == |events|
    ensures committed[i] ==> Commits(states[i], events[i], states[i + 1])
    ensures !committed[i] ==> states[i + 1] == states[i]
  {
  }

  lemma RunShape(states: seq<State>, events: seq<Event>, committed: seq<bool>)
    requires IsRun(states, events, committed)
    ensures |states| == |events| + 1 && |committed| == |events| && states[0] == START
  {
  }

  // ---------- the invariant and the history relation ----------

  ghost predicate SoundEntity(id: string, e: Entity) {
    id == EntityId(e.kind, e.canonicalId) && !Less(e.lastSeen, e.firstSeen)
  }

  ghost predicate SoundEdge(g: Graph, messages: set<string>, i: int) {
    i in g.edges ==>
      var e := g.edges[i];
      && e.src in g.entities && e.dst in g.entities && i < g.nextId
      && (e.evidence.Some? ==> e.evidence.value in messages)
      && (e.kind !in TASK_EDGES ==> e.validTo.None?) && e.validTo != Some("") && e.evidence != Some("")
  }

  /** Every edge joins entities, refers to a present message if to any, and is open unless it
      is a task edge; the unique index holds; provenance and edges name each other. */
  ghost predicate Sound(g: Graph, messages: set<string>) {
    && (forall id :: id in g.entities ==> SoundEntity(id, g.entities[id]))
    && (forall i :: SoundEdge(g, messages, i))
    && UniqueKeys(g.edges)
    && Noted(g)
  }

  ghost predicate Noted(g: Graph) {
    && (forall p :: p in g.provenance ==> p.edge in g.edges)
    && (forall i :: i in g.edges ==> exists p :: p in g.provenance && p.edge == i)
  }

  ghost predicate EntityKept(was: Entity, is': Entity) {
    && is'.kind == was.kind && is'.canonicalId == was.canonicalId && is'.firstSeen == was.firstSeen
    && !Less(is'.lastSeen, was.lastSeen)
  }

  /** An edge keeps its ends, kind and start; its end is set at most once; its evidence is
      cleared at most once and never changes otherwise. */
  ghost predicate EdgeKept(was: Edge, is': Edge) {
    && is'.src == was.src && is'.dst == was.dst && is'.kind == was.kind && is'.validFrom == was.validFrom
    && (was.validTo.Some? ==> is'.validTo == was.validTo)
    && (is'.evidence == was.evidence || (was.evidence.Some? && is'.evidence.None?))
  }

  ghost predicate Extends(g: Graph, g': Graph) {
    && (forall id :: id in g.entities ==> id in g'.entities && EntityKept(g.entities[id], g'.entities[id]))
    && (forall i :: i in g.edges ==> i in g'.edges && EdgeKept(g.edges[i], g'.edges[i]))
    && g.provenance <= g'.provenance
  }

  lemma ExtendsSelf(g: Graph)
    ensures Extends(g, g)
  {
    LessIsOrder();
  }

  lemma EntityKeptOn(a: Entity, b: Entity, c: Entity)
    requires EntityKept(a, b) && EntityKept(b, c)
    ensures EntityKept(a, c)
  {
    LessIsOrder();
  }

  lemma ExtendsOn(g: Graph, h: Graph, k: Graph)
    requires Extends(g, h) && Extends(h, k)
    ensures Extends(g, k)
  {
    forall id | id in g.entities ensures id in k.entities && EntityKept(g.entities[id], k.entities[id]) {
      EntityKeptOn(g.entities[id], h.entities[id], k.entities[id]);
    }
  }

  // ---------- one statement ----------

  /** The statements that messages lead to: entities under their proper names, seen at one
      instant, and plain edges. */
  ghost predicate Proper(a: Action, msg: Message) {
    && msg.timestamp != ""
    && (a.Touch? ==>
      && a.id == EntityId(a.entity.kind, a.entity.canonicalId)
      && a.entity.firstSeen == msg.timestamp && a.entity.lastSeen == msg.timestamp)
  }

  lemma PlanIsProper(branch: string, msg: Message, payload: Payload)
    requires msg.timestamp != ""
    ensures forall a :: a in Plan(branch, msg, payload) ==> Proper(a, msg)
  {
    hide Blank, FirstNonEmpty, EntityId, IsTerminal, FallbackId;
  }

  lemma TouchNeverClashes(g: Graph, messages: set<string>, a: Action, msg: Message)
    requires Sound(g, messages) && a.Touch? && Proper(a, msg)
    ensures !Clashes(g, a.id, a.entity)
  {
    hide EntityId;
    forall other | other in g.entities
      && g.entities[other].kind == a.entity.kind && g.entities[other].canonicalId == a.entity.canonicalId
      ensures other == a.id
    {
      assert SoundEntity(other, g.entities[other]);
    }
  }

  lemma TouchKeepsSound(g: Graph, messages: set<string>, a: Action, msg: Message)
    requires Sound(g, messages) && a.Touch? && Proper(a, msg)
    ensures Sound(Upserted(g, a.id, a.entity), messages) && Extends(g, Upserted(g, a.id, a.entity))
  {
    hide EntityId, UniqueKeys;
    LessIsOrder();
    hide Less;
    var g' := Upserted(g, a.id, a.entity);
    assert forall id :: id in g.entities ==> SoundEntity(id, g.entities[id]);
    assert SoundEntity(a.id, g'.entities[a.id]);
    forall i ensures SoundEdge(g', messages, i) {
      assert SoundEdge(g, messages, i);
    }
  }

  /** What appending an edge may do to the tables. */
  lemma LinkedCases(g: Graph, messages: set<string>, branch: string, e: Edge)
    requires UniqueKeys(g.edges) && Linked(g, messages, branch, e).Some?
    ensures var g' := Linked(g, messages, branch, e).value;
            && g'.entities == g.entities && UniqueKeys(g'.edges)
            && (exists p :: g'.provenance == g.provenance + [p] && p.edge in g'.edges
                            && (g'.edges == g.edges || p.edge == g.nextId))
            && ((g'.edges == g.edges && g'.nextId == g.nextId)
                || (Refers(g, messages, e) && g'.edges == g.edges[g.nextId := e] && g'.nextId == g.nextId + 1))
  {
    hide KeyOf;
    var found := FindEdge(g.edges, KeyOf(e));
    var g' := Linked(g, messages, branch, e).value;
    assert g'.provenance == g.provenance + [g'.provenance[|g.provenance|]];
  }

  lemma JoinKeepsSound(g: Graph, messages: set<string>, branch: string, e: Edge)
    requires Sound(g, messages) && e.validTo.None? && e.evidence != Some("") && Linked(g, messages, branch, e).Some?
    ensures var g' := Linked(g, messages, branch, e).value;
            Sound(g', messages) && Extends(g, g')
  {
    LinkedCases(g, messages, branch, e);
    hide Less, EntityId, UniqueKeys, Linked, Noted, Extends;
    var g' := Linked(g, messages, branch, e).value;
    forall i ensures SoundEdge(g', messages, i) {
      assert SoundEdge(g, messages, i);
    }
    assert SoundEdge(g, messages, g.nextId);
    EveryEdgeNoted(g, g');
    JoinExtends(g, g');
  }

  lemma JoinExtends(g: Graph, g': Graph)
    requires g'.entities == g.entities && exists p :: g'.provenance == g.provenance + [p]
    requires forall i :: i in g.edges ==> i in g'.edges && g'.edges[i] == g.edges[i]
    ensures Extends(g, g')
  {
    LessIsOrder();
  }

  lemma EveryEdgeNoted(g: Graph, g': Graph)
    requires Noted(g) && g.edges.Keys <= g'.edges.Keys
    requires exists p :: g'.provenance == g.provenance + [p] && p.edge in g'.edges
                         && (g'.edges == g.edges || p.edge == g.nextId)
    requires g'.edges.Keys <= g.edges.Keys + {g.nextId}
    ensures Noted(g')
  {
    var q :| g'.provenance == g.provenance + [q] && q.edge in g'.edges && (g'.edges == g.edges || q.edge == g.nextId);
    assert q in g'.provenance;
    forall i | i in g'.edges ensures exists p :: p in g'.provenance && p.edge == i {
      if i in g.edges {
        var p :| p in g.provenance && p.edge == i;
        assert p in g'.provenance;
      }
    }
  }

  lemma FinishKeepsSound(g: Graph, messages: set<string>, task: string, at: string)
    requires Sound(g, messages) && Closed(g, task, at).Some? && at != ""
    ensures var g' := Closed(g, task, at).value;
            Sound(g', messages) && Extends(g, g')
  {
    LessIsOrder();
    hide Less, EntityId, KeyOf, UniqueKeys;
    var g' := Closed(g, task, at).value;
    forall i ensures SoundEdge(g', messages, i) {
      assert SoundEdge(g, messages, i);
    }
  }

  lemma PerformKeepsSound(g: Graph, messages: set<string>, branch: string, msg: Message, a: Action)
    requires Sound(g, messages) && Proper(a, msg) && Perform(g, messages, branch, msg, a).Some?
    ensures var g' := Perform(g, messages, branch, msg, a).value;
            Sound(g', messages) && Extends(g, g')
  {
    hide Sound, Extends, Linked, Closed, Clashes, Upserted;
    match a
    case Touch(id, e) => TouchKeepsSound(g, messages, a, msg);
    case Join(_, _, _) => JoinKeepsSound(g, messages, branch, EdgeFor(a, msg));
    case Finish(task) => FinishKeepsSound(g, messages, task, msg.timestamp);
  }

  lemma {:induction false} PerformAllKeepsSound(
      g: Graph, messages: set<string>, branch: string, msg: Message, plan: seq<Action>)
    requires Sound(g, messages) && (forall a :: a in plan ==> Proper(a, msg))
    requires PerformAll(g, messages, branch, msg, plan).Some?
    ensures var g' := PerformAll(g, messages, branch, msg, plan).value;
            Sound(g', messages) && Extends(g, g')
    decreases |plan|
  {
    hide Sound, Extends, Perform, Proper;
    if plan == [] {
      ExtendsSelf(g);
    } else {
      var h := Perform(g, messages, branch, msg, plan[0]).value;
      PerformKeepsSound(g, messages, branch, msg, plan[0]);
      PerformAllKeepsSound(h, messages, branch, msg, plan[1..]);
      ExtendsOn(g, h, PerformAll(g, messages, branch, msg, plan).value);
    }
  }

  lemma DetachKeepsSound(g: Graph, messages: set<string>, messages': set<string>)
    requires Sound(g, messages) && !Twins(g)
    ensures Sound(Detached(g), messages') && Extends(g, Detached(g))
  {
    LessIsOrder();
    hide Less, EntityId, UniqueKeys;
    var g' := Detached(g);
    forall i ensures SoundEdge(g', messages', i) {
      assert SoundEdge(g, messages, i);
    }
  }

  // ---------- every run ----------

  lemma CommitKeepsSound(s: State, e: Event, s': State)
    requires Sound(s.graph, s.messages) && Commits(s, e, s')
    ensures Sound(s'.graph, s'.messages) && Extends(s.graph, s'.graph)
  {
    hide Sound, Extends, PerformAll, Plan, Detached, Twins;
    match e
    case Write(branch, msg, payload) =>
      PlanIsProper(branch, msg, payload);
      PerformAllKeepsSound(s.graph, s.messages, branch, msg, Plan(branch, msg, payload));
    case Replace(messages) => DetachKeepsSound(s.graph, s.messages, messages);
  }

  lemma {:induction false} AlwaysSound(states: seq<State>, events: seq<Event>, committed: seq<bool>, i: nat)
    requires IsRun(states, events, committed) && i < |states|
    ensures Sound(states[i].graph, states[i].messages)
  {
    hide Commits;
    if i > 0 {
      AlwaysSound(states, events, committed, i - 1);
      RunStep(states, events, committed, i - 1);
      hide Sound, IsRun;
      if committed[i - 1] {
        CommitKeepsSound(states[i - 1], events[i - 1], states[i]);
      }
    }
  }

  // ---------- when the evidence goes ----------

  /** A snapshot update went through at one of the steps from `m` to before `n`. */
  ghost predicate Updated(events: seq<Event>, committed: seq<bool>, m: nat, n: nat) {
    exists k :: m <= k < n && k < |events| && k < |committed| && committed[k] && events[k].Replace?
  }

  /** An edge after a step: an update clears its evidence, nothing else touches it. */
  ghost predicate EvidenceAfter(g: Graph, g': Graph, cleared: bool) {
    forall x :: x in g.edges ==>
      x in g'.edges && g'.edges[x].evidence == if cleared then None else g.edges[x].evidence
  }

  lemma StatementKeepsEvidence(g: Graph, messages: set<string>, branch: string, msg: Message, a: Action)
    requires Sound(g, messages) && Perform(g, messages, branch, msg, a).Some?
    ensures EvidenceAfter(g, Perform(g, messages, branch, msg, a).value, false)
  {
    if a.Join? {
      LinkedCases(g, messages, branch, EdgeFor(a, msg));
      assert SoundEdge(g, messages, g.nextId);
    }
  }

  lemma {:induction false} PlanKeepsEvidence(
      g: Graph, messages: set<string>, branch: string, msg: Message, plan: seq<Action>)
    requires Sound(g, messages) && (forall a :: a in plan ==> Proper(a, msg))
    requires PerformAll(g, messages, branch, msg, plan).Some?
    ensures EvidenceAfter(g, PerformAll(g, messages, branch, msg, plan).value, false)
    decreases |plan|
  {
    if plan != [] {
      hide Perform, Sound, Proper;
      PerformKeepsSound(g, messages, branch, msg, plan[0]);
      StatementKeepsEvidence(g, messages, branch, msg, plan[0]);
      PlanKeepsEvidence(Perform(g, messages, branch, msg, plan[0]).value, messages, branch, msg, plan[1..]);
    }
  }

  lemma CommitOnEvidence(s: State, e: Event, s': State)
    requires Sound(s.graph, s.messages) && Commits(s, e, s')
    ensures EvidenceAfter(s.graph, s'.graph, e.Replace?)
  {
    match e
    case Write(branch, msg, payload) =>
      PlanIsProper(branch, msg, payload);
      hide Sound, EvidenceAfter, Plan;
      PlanKeepsEvidence(s.graph, s.messages, branch, msg, Plan(branch, msg, payload));
    case Replace(_) =>
  }

  lemma UpdatedOneMore(events: seq<Event>, committed: seq<bool>, m: nat, n: nat)
    requires m <= n < |events| && |committed| == |events|
    ensures Updated(events, committed, m, n + 1) <==>
              Updated(events, committed, m, n) || (committed[n] && events[n].Replace?)
    ensures !Updated(events, committed, m, m)
  {
  }

  /** Between any two steps an edge's evidence is cleared if an update went through in between,
      and is the same otherwise. */
  lemma {:induction false} EvidenceHistory(
      states: seq<State>, events: seq<Event>, committed: seq<bool>, m: nat, n: nat)
    requires IsRun(states, events, committed) && m <= n < |states|
    ensures EvidenceAfter(states[m].graph, states[n].graph, Updated(events, committed, m, n))
    decreases n
  {
    RunShape(states, events, committed);
    if m < n {
      hide Sound, Commits, IsRun;
      EvidenceHistory(states, events, committed, m, n - 1);
      AlwaysSound(states, events, committed, n - 1);
      RunStep(states, events, committed, n - 1);
      UpdatedOneMore(events, committed, m, n - 1);
      if committed[n - 1] {
        CommitOnEvidence(states[n - 1], events[n - 1], states[n]);
      }
      hide Updated;
    }
  }

  /** MAIN RESULT.  In every run: every edge endpoint is an entity, entities and edges are never
      lost, an edge changes at most by being closed once and by losing its evidence, which happens
      between two steps exactly if an update went through in between; entities keep their names
      and first sighting, provenance only grows and names existing edges. */
  lemma {:induction false} HistoryIsKept(states: seq<State>, events: seq<Event>, committed: seq<bool>, i: nat, j: nat)
    requires IsRun(states, events, committed) && i <= j < |states|
    ensures Sound(states[j].graph, states[j].messages) && Extends(states[i].graph, states[j].graph)
    ensures EvidenceAfter(states[i].graph, states[j].graph, Updated(events, committed, i, j))
    decreases j
  {
    hide *;
    AlwaysSound(states, events, committed, j);
    EvidenceHistory(states, events, committed, i, j);
    RunShape(states, events, committed);
    if i == j {
      ExtendsSelf(states[i].graph);
    } else {
      HistoryIsKept(states, events, committed, i, j - 1);
      RunStep(states, events, committed, j - 1);
      if committed[j - 1] {
        CommitKeepsSound(states[j - 1], events[j - 1], states[j]);
        ExtendsOn(states[i].graph, states[j - 1].graph, states[j].graph);
      }
    }
  }
}
