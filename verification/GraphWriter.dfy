/** Writing the entity graph: upserted entities, append-only edges with their provenance, and
    the closing of open edges, as statements against tables with the constraints of the schema.

    A NULL column is None.  Edge weights and edge attributes are constant and left out.
 */
module GraphWriter {
  import opened Text
  import opened Records

  datatype Entity = Entity(
    kind: string, canonicalId: string, displayName: string, firstSeen: string, lastSeen: string,
    attrs: map<string, string>)

  datatype Edge = Edge(
    src: string, dst: string, kind: string, validFrom: string, validTo: Option<string>, evidence: Option<string>)

  datatype Provenance = Provenance(edge: int, decision: string, branch: string, evidence: string, producedAt: string)

  datatype Graph = Graph(
    entities: map<string, Entity>, edges: map<int, Edge>, nextId: int, provenance: seq<Provenance>)

  const EMPTY_GRAPH := Graph(map[], map[], 1, [])

  /** The kinds are literals without white space or upper-case letters. */
  function EntityId(kind: string, canonicalId: string): string {
    if TrimSpace(canonicalId) == "" then "" else kind + ":" + TrimSpace(canonicalId)
  }

  function OrEmpty(s: Option<string>): string {
    if s.Some? then s.value else ""
  }

  function NullIfEmpty(s: string): Option<string> {
    if s == "" then None else Some(s)
  }

  /** The columns of the unique index on edges. */
  datatype EdgeKey = EdgeKey(
    src: string, dst: string, kind: string, validFrom: string, validTo: string, evidence: string)

  function KeyOf(e: Edge): EdgeKey {
    EdgeKey(e.src, e.dst, e.kind, e.validFrom, OrEmpty(e.validTo), OrEmpty(e.evidence))
  }

  ghost predicate UniqueKeys(edges: map<int, Edge>) {
    forall i, j :: i in edges && j in edges && KeyOf(edges[i]) == KeyOf(edges[j]) ==> i == j
  }

  // ---------- the statements ----------

  /** Inserting an entity fails if another id already stands for the same kind and canonical id. */
  predicate Clashes(g: Graph, id: string, e: Entity) {
    && id !in g.entities
    && exists other ::
         other in g.entities && g.entities[other].kind == e.kind && g.entities[other].canonicalId == e.canonicalId
  }

  function Upserted(g: Graph, id: string, e: Entity): Graph {
    var row :=
      if id in g.entities then
        var was := g.entities[id];
        was.(displayName := if e.displayName != "" then e.displayName else was.displayName,
             lastSeen := if Less(was.lastSeen, e.lastSeen) then e.lastSeen else was.lastSeen,
             attrs := e.attrs)
      else e;
    g.(entities := g.entities[id := row])
  }

  ghost function FindEdge(edges: map<int, Edge>, key: EdgeKey): (found: Option<int>)
    ensures found.Some? ==> found.value in edges && KeyOf(edges[found.value]) == key
    ensures found.None? ==> forall i :: i in edges ==> KeyOf(edges[i]) != key
  {
    if i :| i in edges && KeyOf(edges[i]) == key then Some(i) else None
  }

  /** The row's references exist. */
  predicate Refers(g: Graph, messages: set<string>, e: Edge) {
    e.src in g.entities && e.dst in g.entities && (e.evidence.Some? ==> e.evidence.value in messages)
  }

  /** An edge and its provenance row; None when a reference is missing. */
  ghost function Linked(g: Graph, messages: set<string>, branch: string, e: Edge): Option<Graph> {
    var found := FindEdge(g.edges, KeyOf(e));
    var note := (id: int, decision: string) => Provenance(id, decision, branch, OrEmpty(e.evidence), e.validFrom);
    if found.Some? then Some(g.(provenance := g.provenance + [note(found.value, "existing")]))
    else if !Refers(g, messages, e) then None
    else Some(g.(edges := g.edges[g.nextId := e], nextId := g.nextId + 1,
                 provenance := g.provenance + [note(g.nextId, "inserted")]))
  }

  const TASK_EDGES: set<string> := {"sent", "responded", "delegated_to"}

  function ClosedEdge(e: Edge, dst: string, at: string): Edge {
    if e.dst == dst && e.validTo.None? && e.kind in TASK_EDGES then e.(validTo := Some(at)) else e
  }

  function ClosedEdges(edges: map<int, Edge>, dst: string, at: string): map<int, Edge> {
    map i | i in edges :: ClosedEdge(edges[i], dst, at)
  }

  /** The open edges of some kinds into `dst`, closed. */
  function ClosedKinds(edges: map<int, Edge>, dst: string, kinds: seq<string>, at: string): map<int, Edge> {
    map i | i in edges ::
      if edges[i].dst == dst && edges[i].validTo.None? && edges[i].kind in kinds
      then edges[i].(validTo := Some(at)) else edges[i]
  }

  const TASK_EDGE_LIST := ["sent", "responded", "delegated_to"]

  lemma ClosedTaskEdges(edges: map<int, Edge>, dst: string, at: string)
    ensures ClosedKinds(edges, dst, TASK_EDGE_LIST, at) == ClosedEdges(edges, dst, at)
  {
    assert forall kind :: kind in TASK_EDGE_LIST <==> kind in TASK_EDGES;
    assert forall i :: i in edges ==>
      ClosedKinds(edges, dst, TASK_EDGE_LIST, at)[i] == ClosedEdges(edges, dst, at)[i];
  }

  /** Closing fails if it would make two rows agree on the unique index. */
  ghost function Closed(g: Graph, dst: string, at: string): Option<Graph> {
    var edges := ClosedEdges(g.edges, dst, at);
    if UniqueKeys(edges) then Some(g.(edges := edges)) else None
  }

  // ---------- what one message writes ----------

  datatype Action =
    | Touch(id: string, entity: Entity)
    | Join(kind: string, src: string, dst: string)
    | Finish(task: string)

  predicate IsTerminal(status: string) {
    ToLower(TrimSpace(status)) in {"completed", "failed", "cancelled", "canceled"}
  }

  function Seen(kind: string, canonicalId: string, displayName: string,
                at: string, attrs: map<string, string>): Action {
    Touch(EntityId(kind, canonicalId), Entity(kind, canonicalId, displayName, at, at, attrs))
  }

  function AgentJoins(agent: string, at: string, kind: string, dst: string): seq<Action> {
    [Seen("agent", agent, agent, at, map[]), Join(kind, EntityId("agent", agent), dst)]
  }

  function RequestPlan(msg: Message, p: RequestPayload): seq<Action> {
    if Blank(p.taskId) then []
    else
      var task := EntityId("task", p.taskId);
      var requester := FirstNonEmpty(p.requesterId, msg.sender);
      [Seen("task", p.taskId, FirstNonEmpty(p.description, p.taskId), msg.timestamp, map[])]
      + (if requester == "" then [] else AgentJoins(requester, msg.timestamp, "sent", task))
      + (if Blank(p.parentTaskId) then []
         else [Seen("task", p.parentTaskId, p.parentTaskId, msg.timestamp, map[]),
               Join("delegated_to", EntityId("task", p.parentTaskId), task)])
  }

  function ResponsePlan(msg: Message, p: ResponsePayload): seq<Action> {
    if Blank(p.taskId) then []
    else
      var task := EntityId("task", p.taskId);
      var responder := FirstNonEmpty(p.responderId, msg.sender);
      [Seen("task", p.taskId, p.taskId, msg.timestamp, map["status" := p.status])]
      + (if responder == "" then []
         else AgentJoins(responder, msg.timestamp, "responded", task)
              + (if IsTerminal(p.status) then [Finish(task)] else []))
  }

  function TracePlan(msg: Message, p: TracePayload): seq<Action> {
    if Blank(p.traceId) || Blank(msg.sender) then []
    else
      [Seen("trace", p.traceId, FirstNonEmpty(p.title, p.traceId), msg.timestamp, map["span_type" := p.spanType])]
      + AgentJoins(msg.sender, msg.timestamp, "spans", EntityId("trace", p.traceId))
  }

  function StatusPlan(msg: Message, p: StatusPayload): seq<Action> {
    if Blank(p.taskId) then []
    else
      [Seen("task", p.taskId, p.taskId, msg.timestamp, map["status" := p.status, "summary" := p.summary])]
      + (if IsTerminal(p.status) then [Finish(EntityId("task", p.taskId))] else [])
  }

  function BranchPlan(branch: string, msg: Message, payload: Payload): seq<Action> {
    if branch == "requests" && payload.request.Some? then RequestPlan(msg, payload.request.value)
    else if branch == "responses" && payload.response.Some? then ResponsePlan(msg, payload.response.value)
    else if branch == "traces" && payload.trace.Some? then TracePlan(msg, payload.trace.value)
    else if branch == "tasks.status" && payload.status.Some? then StatusPlan(msg, payload.status.value)
    else []
  }

  function Correlation(msg: Message): string {
    FallbackId(msg.correlation, msg.id)
  }

  /** All statements for one message, in order. */
  function Plan(branch: string, msg: Message, payload: Payload): seq<Action> {
    var topic := EntityId("topic", msg.topic);
    var correlation := EntityId("correlation", Correlation(msg));
    [Seen("topic", msg.topic, msg.topic, msg.timestamp, map["family" := msg.family]),
     Seen("correlation", Correlation(msg), Correlation(msg), msg.timestamp, map[]),
     Join("mentions", correlation, topic)]
    + (if Blank(msg.sender) then [] else AgentJoins(msg.sender, msg.timestamp, "member_of", correlation))
    + BranchPlan(branch, msg, payload)
  }

  function EdgeFor(a: Action, msg: Message): Edge
    requires a.Join?
  {
    Edge(a.src, a.dst, a.kind, msg.timestamp, None, NullIfEmpty(msg.id))
  }

  ghost function Perform(g: Graph, messages: set<string>, branch: string, msg: Message, a: Action): Option<Graph> {
    match a
    case Touch(id, e) => if Clashes(g, id, e) then None else Some(Upserted(g, id, e))
    case Join(_, _, _) => Linked(g, messages, branch, EdgeFor(a, msg))
    case Finish(task) => Closed(g, task, msg.timestamp)
  }

  ghost function PerformAll(
      g: Graph, messages: set<string>, branch: string, msg: Message, plan: seq<Action>): Option<Graph>
    decreases |plan|
  {
    if plan == [] then Some(g)
    else
      var g' := Perform(g, messages, branch, msg, plan[0]);
      if g'.None? then None else PerformAll(g'.value, messages, branch, msg, plan[1..])
  }

  lemma {:induction false} PerformSplits(
      g: Graph, messages: set<string>, branch: string, msg: Message, plan: seq<Action>, more: seq<Action>)
    ensures PerformAll(g, messages, branch, msg, plan + more) ==
            var g' := PerformAll(g, messages, branch, msg, plan);
            if g'.None? then None else PerformAll(g'.value, messages, branch, msg, more)
    decreases |plan|
  {
    if plan == [] {
      assert plan + more == more;
    } else {
      assert (plan + more)[1..] == plan[1..] + more;
      var g' := Perform(g, messages, branch, msg, plan[0]);
      if g'.Some? {
        PerformSplits(g'.value, messages, branch, msg, plan[1..], more);
      }
    }
  }

  lemma PerformOne(g: Graph, messages: set<string>, branch: string, msg: Message, a: Action)
    ensures PerformAll(g, messages, branch, msg, [a]) == Perform(g, messages, branch, msg, a)
    ensures PerformAll(g, messages, branch, msg, []) == Some(g)
  {
    assert [a][1..] == [];
  }

  lemma PerformKeepsKeys(g: Graph, messages: set<string>, branch: string, msg: Message, a: Action)
    requires UniqueKeys(g.edges) && Perform(g, messages, branch, msg, a).Some?
    ensures UniqueKeys(Perform(g, messages, branch, msg, a).value.edges)
  {
    hide KeyOf;
    if a.Join? {
      var e := EdgeFor(a, msg);
      var found := FindEdge(g.edges, KeyOf(e));
    }
  }

  // ---------- the store ----------

  class GraphStore {
    var entities: map<string, Entity>
    var edges: map<int, Edge>
    var nextId: int
    var provenance: seq<Provenance>

    ghost function View(): Graph
      reads this
    {
      Graph(entities, edges, nextId, provenance)
    }

    constructor ()
      ensures View() == EMPTY_GRAPH
    {
      entities, edges, nextId, provenance := map[], map[], 1, [];
    }

    method UpsertEntity(id: string, e: Entity) returns (ok: bool)
      modifies this`entities
      ensures ok <==> !Clashes(old(View()), id, e)
      ensures View() == if ok then Upserted(old(View()), id, e) else old(View())
      ensures ok <==> id in old(entities)
                      || forall other :: other in old(entities) ==>
                           old(entities)[other].kind != e.kind || old(entities)[other].canonicalId != e.canonicalId
      ensures ok && id !in old(entities) ==> entities == old(entities)[id := e]
      ensures id in old(entities) ==>
                var was := old(entities)[id];
                entities == old(entities)[id := Entity(
                  was.kind, was.canonicalId, if e.displayName != "" then e.displayName else was.displayName,
                  was.firstSeen, if Less(was.lastSeen, e.lastSeen) then e.lastSeen else was.lastSeen, e.attrs)]
    {
      if id in entities {
        var row := entities[id];
        if e.displayName != "" {
          row := row.(displayName := e.displayName);
        }
        if Less(row.lastSeen, e.lastSeen) {
          row := row.(lastSeen := e.lastSeen);
        }
        row := row.(attrs := e.attrs);
        entities := entities[id := row];
        return true;
      }
      if exists other :: other in entities && entities[other].kind == e.kind
          && entities[other].canonicalId == e.canonicalId {
        return false;
      }
      entities := entities[id := e];
      return true;
    }

    /** Inserts the edge unless the unique index knows it; returns its row id either way. */
    method AppendEdge(e: Edge, messages: set<string>) returns (id: int, inserted: bool, ok: bool)
      requires UniqueKeys(edges)
      modifies this`edges, this`nextId
      ensures var found := FindEdge(old(edges), KeyOf(e));
              && (ok <==> found.Some? || Refers(old(View()), messages, e))
              && (ok ==> inserted == found.None? && id == if found.Some? then found.value else old(nextId))
              && (ok && inserted ==> edges == old(edges)[id := e] && nextId == id + 1)
              && (!(ok && inserted) ==> edges == old(edges) && nextId == old(nextId))
    {
      if i :| i in edges && KeyOf(edges[i]) == KeyOf(e) {
        return i, false, true;
      }
      if !(e.src in entities && e.dst in entities && (e.evidence.Some? ==> e.evidence.value in messages)) {
        return 0, false, false;
      }
      id := nextId;
      edges := edges[id := e];
      nextId := nextId + 1;
      return id, true, true;
    }

    method AppendProvenance(p: Provenance)
      modifies this`provenance
      ensures provenance == old(provenance) + [p]
    {
      provenance := provenance + [p];
    }

    method AppendGraphEdge(branch: string, msg: Message, kind: string, src: string, dst: string, messages: set<string>)
      returns (ok: bool)
      requires UniqueKeys(edges)
      modifies this
      ensures var g := Perform(old(View()), messages, branch, msg, Join(kind, src, dst));
              ok == g.Some? && (ok ==> View() == g.value)
      ensures ok ==> provenance != [] && provenance[|provenance| - 1].edge in edges
      ensures ok ==>
                var note := provenance[|provenance| - 1];
                var row := edges[note.edge];
                && provenance == old(provenance) + [note]
                && row.src == src && row.dst == dst && row.kind == kind && row.validFrom == msg.timestamp
                && OrEmpty(row.validTo) == "" && OrEmpty(row.evidence) == msg.id
                && edges == (if note.decision == "inserted" then old(edges)[note.edge := row] else old(edges))
                && note.decision == (if exists i :: i in old(edges) && KeyOf(old(edges)[i]) == KeyOf(row)
                                     then "existing" else "inserted")
                && note.branch == branch && note.evidence == msg.id && note.producedAt == msg.timestamp
    {
      var e := Edge(src, dst, kind, msg.timestamp, None, NullIfEmpty(msg.id));
      var id, inserted, appended := AppendEdge(e, messages);
      if !appended {
        return false;
      }
      var decision := "existing";
      if inserted {
        decision := "inserted";
      }
      AppendProvenance(Provenance(id, decision, branch, OrEmpty(e.evidence), msg.timestamp));
      return true;
    }

    /** Closes the open edges of some kinds into `dst`; the unique index may refuse. */
    method CloseOpenEdges(dst: string, kinds: seq<string>, at: string) returns (ok: bool)
      requires UniqueKeys(edges)
      modifies this`edges
      ensures ok <==> UniqueKeys(ClosedKinds(old(edges), dst, kinds, at))
      ensures edges == if ok then ClosedKinds(old(edges), dst, kinds, at) else old(edges)
    {
      if kinds == [] {
        assert ClosedKinds(edges, dst, kinds, at) == edges;
        return true;
      }
      var next := map i | i in edges ::
        if edges[i].dst == dst && edges[i].validTo.None? && edges[i].kind in kinds
        then edges[i].(validTo := Some(at)) else edges[i];
      assert next == ClosedKinds(edges, dst, kinds, at);
      if exists i, j :: i in next && j in next && i != j && KeyOf(next[i]) == KeyOf(next[j]) {
        return false;
      }
      edges := next;
      return true;
    }

    /** Entity upserts inside a graph write; with names in order they cannot fail. */
    method See(kind: string, canonicalId: string, displayName: string, at: string, attrs: map<string, string>)
      returns (ok: bool)
      modifies this`entities
      ensures var a := Seen(kind, canonicalId, displayName, at, attrs);
              && (ok <==> !Clashes(old(View()), a.id, a.entity))
              && View() == if ok then Upserted(old(View()), a.id, a.entity) else old(View())
    {
      ok := UpsertEntity(EntityId(kind, canonicalId), Entity(kind, canonicalId, displayName, at, at, attrs));
    }

    /** An agent and an edge from it. */
    method AppendAgentEdge(
        branch: string, msg: Message, agent: string, kind: string, dst: string, messages: set<string>)
      returns (ok: bool)
      requires UniqueKeys(edges)
      modifies this
      ensures var g := PerformAll(old(View()), messages, branch, msg, AgentJoins(agent, msg.timestamp, kind, dst));
              ok == g.Some? && (ok ==> View() == g.value && UniqueKeys(edges))
    {
      hide UniqueKeys, Perform, Seen;
      ghost var first := Seen("agent", agent, agent, msg.timestamp, map[]);
      ghost var second := Join(kind, EntityId("agent", agent), dst);
      Pair(View(), messages, branch, msg, first, second);
      ok := See("agent", agent, agent, msg.timestamp, map[]);
      SeenIsTouch(old(View()), messages, branch, msg, "agent", agent, agent, map[]);
      if !ok { return; }
      ghost var g := View();
      ok := AppendGraphEdge(branch, msg, kind, EntityId("agent", agent), dst, messages);
      if ok { PerformKeepsKeys(g, messages, branch, msg, second); }
    }

    method AppendRequestGraph(branch: string, msg: Message, payload: Option<RequestPayload>, messages: set<string>)
      returns (ok: bool)
      requires UniqueKeys(edges)
      modifies this
      ensures var plan := if payload.Some? then RequestPlan(msg, payload.value) else [];
              var g := PerformAll(old(View()), messages, branch, msg, plan);
              ok == g.Some? && (ok ==> View() == g.value && UniqueKeys(edges))
    {
      if payload.None? || Blank(payload.value.taskId) {
        return true;
      }
      hide UniqueKeys, Perform, PerformAll, Seen, Blank, FirstNonEmpty, EntityId;
      var p := payload.value;
      var taskId := EntityId("task", p.taskId);
      var requester := FirstNonEmpty(p.requesterId, msg.sender);
      var description := FirstNonEmpty(p.description, p.taskId);
      ghost var a := [Seen("task", p.taskId, description, msg.timestamp, map[])];
      ghost var b := if requester == "" then [] else AgentJoins(requester, msg.timestamp, "sent", taskId);
      ghost var parent := Seen("task", p.parentTaskId, p.parentTaskId, msg.timestamp, map[]);
      ghost var delegated := Join("delegated_to", EntityId("task", p.parentTaskId), taskId);
      ghost var c := if Blank(p.parentTaskId) then [] else [parent, delegated];
      assert RequestPlan(msg, p) == a + b + c;
      PerformSplits(View(), messages, branch, msg, a + b, c);
      PerformSplits(View(), messages, branch, msg, a, b);
      SeenIsTouch(View(), messages, branch, msg, "task", p.taskId, description, map[]);
      ok := See("task", p.taskId, description, msg.timestamp, map[]);
      if !ok { return; }
      ghost var g := View();
      PerformOne(g, messages, branch, msg, parent);
      if requester != "" {
        ok := AppendAgentEdge(branch, msg, requester, "sent", taskId, messages);
        if !ok { return; }
      }
      g := View();
      PerformOne(g, messages, branch, msg, parent);
      if !Blank(p.parentTaskId) {
        Pair(g, messages, branch, msg, parent, delegated);
        SeenIsTouch(g, messages, branch, msg, "task", p.parentTaskId, p.parentTaskId, map[]);
        ok := See("task", p.parentTaskId, p.parentTaskId, msg.timestamp, map[]);
        if !ok { return; }
        g := View();
        ok := AppendGraphEdge(branch, msg, "delegated_to", EntityId("task", p.parentTaskId), taskId, messages);
        if !ok { return; }
        PerformKeepsKeys(g, messages, branch, msg, delegated);
      }
    }

    method AppendResponseGraph(branch: string, msg: Message, payload: Option<ResponsePayload>, messages: set<string>)
      returns (ok: bool)
      requires UniqueKeys(edges)
      modifies this
      ensures var plan := if payload.Some? then ResponsePlan(msg, payload.value) else [];
              var g := PerformAll(old(View()), messages, branch, msg, plan);
              ok == g.Some? && (ok ==> View() == g.value && UniqueKeys(edges))
    {
      if payload.None? || Blank(payload.value.taskId) {
        return true;
      }
      hide UniqueKeys, Perform, PerformAll, Seen, Blank, FirstNonEmpty, EntityId, IsTerminal, Closed;
      var p := payload.value;
      var taskId := EntityId("task", p.taskId);
      var responder := FirstNonEmpty(p.responderId, msg.sender);
      ghost var a := [Seen("task", p.taskId, p.taskId, msg.timestamp, map["status" := p.status])];
      ghost var b := if responder == "" then [] else AgentJoins(responder, msg.timestamp, "responded", taskId);
      ghost var c := if responder == "" || !IsTerminal(p.status) then [] else [Finish(taskId)];
      assert ResponsePlan(msg, p) == a + b + c;
      PerformSplits(View(), messages, branch, msg, a + b, c);
      PerformSplits(View(), messages, branch, msg, a, b);
      SeenIsTouch(View(), messages, branch, msg, "task", p.taskId, p.taskId, map["status" := p.status]);
      ok := See("task", p.taskId, p.taskId, msg.timestamp, map["status" := p.status]);
      if !ok { return; }
      PerformOne(View(), messages, branch, msg, Finish(taskId));
      if responder == "" {
        return true;
      }
      ok := AppendAgentEdge(branch, msg, responder, "responded", taskId, messages);
      if !ok { return; }
      ghost var g := View();
      PerformOne(g, messages, branch, msg, Finish(taskId));
      if IsTerminal(p.status) {
        FinishIsClosed(g, messages, branch, msg, taskId);
        ClosedTaskEdges(edges, taskId, msg.timestamp);
        ok := CloseOpenEdges(taskId, TASK_EDGE_LIST, msg.timestamp);
      }
    }

    method AppendTraceGraph(branch: string, msg: Message, payload: Option<TracePayload>, messages: set<string>)
      returns (ok: bool)
      requires UniqueKeys(edges)
      modifies this
      ensures var plan := if payload.Some? then TracePlan(msg, payload.value) else [];
              var g := PerformAll(old(View()), messages, branch, msg, plan);
              ok == g.Some? && (ok ==> View() == g.value && UniqueKeys(edges))
    {
      if payload.None? || Blank(payload.value.traceId) || Blank(msg.sender) {
        return true;
      }
      hide UniqueKeys, Perform, PerformAll, Seen, Blank, FirstNonEmpty, EntityId;
      var p := payload.value;
      var traceId := EntityId("trace", p.traceId);
      var title := FirstNonEmpty(p.title, p.traceId);
      ghost var a := [Seen("trace", p.traceId, title, msg.timestamp, map["span_type" := p.spanType])];
      PerformSplits(View(), messages, branch, msg, a, AgentJoins(msg.sender, msg.timestamp, "spans", traceId));
      SeenIsTouch(View(), messages, branch, msg, "trace", p.traceId, title, map["span_type" := p.spanType]);
      ok := See("trace", p.traceId, title, msg.timestamp, map["span_type" := p.spanType]);
      if !ok { return; }
      ok := AppendAgentEdge(branch, msg, msg.sender, "spans", traceId, messages);
    }

    method AppendTaskStatusGraph(branch: string, msg: Message, payload: Option<StatusPayload>, messages: set<string>)
      returns (ok: bool)
      requires UniqueKeys(edges)
      modifies this
      ensures var plan := if payload.Some? then StatusPlan(msg, payload.value) else [];
              var g := PerformAll(old(View()), messages, branch, msg, plan);
              ok == g.Some? && (ok ==> View() == g.value && UniqueKeys(edges))
    {
      if payload.None? || Blank(payload.value.taskId) {
        return true;
      }
      hide UniqueKeys, Perform, PerformAll, Seen, Blank, EntityId, IsTerminal, Closed;
      var p := payload.value;
      var taskId := EntityId("task", p.taskId);
      ghost var attrs := map["status" := p.status, "summary" := p.summary];
      ghost var a := [Seen("task", p.taskId, p.taskId, msg.timestamp, attrs)];
      ghost var b := if IsTerminal(p.status) then [Finish(taskId)] else [];
      PerformSplits(View(), messages, branch, msg, a, b);
      SeenIsTouch(View(), messages, branch, msg, "task", p.taskId, p.taskId, attrs);
      ok := See("task", p.taskId, p.taskId, msg.timestamp, map["status" := p.status, "summary" := p.summary]);
      if !ok { return; }
      ghost var g := View();
      PerformOne(g, messages, branch, msg, Finish(taskId));
      if IsTerminal(p.status) {
        FinishIsClosed(g, messages, branch, msg, taskId);
        ClosedTaskEdges(edges, taskId, msg.timestamp);
        ok := CloseOpenEdges(taskId, TASK_EDGE_LIST, msg.timestamp);
      }
    }

    /** One graph transaction: all statements of a message, or none of them. */
    method AppendGraph(branch: string, msg: Message, payload: Payload, messages: set<string>) returns (ok: bool)
      requires UniqueKeys(edges)
      modifies this
      ensures var g := PerformAll(old(View()), messages, branch, msg, Plan(branch, msg, payload));
              ok == g.Some? && View() == if ok then g.value else old(View())
    {
      var savedEntities, savedEdges, savedNextId, savedProvenance := entities, edges, nextId, provenance;
      ok := AppendMessageGraph(branch, msg, payload, messages);
      if !ok {
        entities, edges, nextId, provenance := savedEntities, savedEdges, savedNextId, savedProvenance;
      }
    }

    method AppendMessageGraph(branch: string, msg: Message, payload: Payload, messages: set<string>) returns (ok: bool)
      requires UniqueKeys(edges)
      modifies this
      ensures var g := PerformAll(old(View()), messages, branch, msg, Plan(branch, msg, payload));
              ok == g.Some? && (ok ==> View() == g.value)
    {
      hide UniqueKeys, Perform, PerformAll, Seen, Blank, EntityId, AgentJoins,
           RequestPlan, ResponsePlan, TracePlan, StatusPlan;
      var topicId := EntityId("topic", msg.topic);
      var name := Correlation(msg);
      var correlationId := EntityId("correlation", name);
      ghost var family := map["family" := msg.family];
      ghost var a := [Seen("topic", msg.topic, msg.topic, msg.timestamp, family)];
      ghost var b := [Seen("correlation", name, name, msg.timestamp, map[])];
      ghost var mention := Join("mentions", correlationId, topicId);
      ghost var d := if Blank(msg.sender) then []
                     else AgentJoins(msg.sender, msg.timestamp, "member_of", correlationId);
      ghost var rest := BranchPlan(branch, msg, payload);
      assert Plan(branch, msg, payload) == a + b + [mention] + d + rest;
      PerformSplits(View(), messages, branch, msg, a + b + [mention] + d, rest);
      PerformSplits(View(), messages, branch, msg, a + b + [mention], d);
      PerformSplits(View(), messages, branch, msg, a + b, [mention]);
      PerformSplits(View(), messages, branch, msg, a, b);
      SeenIsTouch(View(), messages, branch, msg, "topic", msg.topic, msg.topic, family);
      ok := See("topic", msg.topic, msg.topic, msg.timestamp, map["family" := msg.family]);
      if !ok { return; }
      SeenIsTouch(View(), messages, branch, msg, "correlation", name, name, map[]);
      ok := See("correlation", name, name, msg.timestamp, map[]);
      if !ok { return; }
      ghost var g := View();
      PerformOne(g, messages, branch, msg, mention);
      ok := AppendGraphEdge(branch, msg, "mentions", correlationId, topicId, messages);
      if !ok { return; }
      PerformKeepsKeys(g, messages, branch, msg, mention);
      PerformOne(View(), messages, branch, msg, mention);
      if !Blank(msg.sender) {
        ok := AppendAgentEdge(branch, msg, msg.sender, "member_of", correlationId, messages);
        if !ok { return; }
      }
      PerformOne(View(), messages, branch, msg, mention);
      if branch == "requests" {
        ok := AppendRequestGraph(branch, msg, payload.request, messages);
      } else if branch == "responses" {
        ok := AppendResponseGraph(branch, msg, payload.response, messages);
      } else if branch == "traces" {
        ok := AppendTraceGraph(branch, msg, payload.trace, messages);
      } else if branch == "tasks.status" {
        ok := AppendTaskStatusGraph(branch, msg, payload.status, messages);
      }
    }
  }

  lemma Pair(g: Graph, messages: set<string>, branch: string, msg: Message, a: Action, b: Action)
    ensures PerformAll(g, messages, branch, msg, [a, b]) ==
            var g' := Perform(g, messages, branch, msg, a);
            if g'.None? then None else Perform(g'.value, messages, branch, msg, b)
  {
    assert [a, b] == [a] + [b];
    PerformOne(g, messages, branch, msg, a);
    PerformSplits(g, messages, branch, msg, [a], [b]);
    var g' := Perform(g, messages, branch, msg, a);
    if g'.Some? {
      PerformOne(g'.value, messages, branch, msg, b);
    }
  }

  lemma SeenIsTouch(
      g: Graph, messages: set<string>, branch: string, msg: Message,
      kind: string, canonicalId: string, displayName: string, attrs: map<string, string>)
    ensures var a := Seen(kind, canonicalId, displayName, msg.timestamp, attrs);
            && Perform(g, messages, branch, msg, a) ==
               (if Clashes(g, a.id, a.entity) then None else Some(Upserted(g, a.id, a.entity)))
            && PerformAll(g, messages, branch, msg, [a]) == Perform(g, messages, branch, msg, a)
    ensures UniqueKeys(g.edges) ==>
              var a := Seen(kind, canonicalId, displayName, msg.timestamp, attrs);
              UniqueKeys(Upserted(g, a.id, a.entity).edges)
  {
    PerformOne(g, messages, branch, msg, Seen(kind, canonicalId, displayName, msg.timestamp, attrs));
  }

  lemma FinishIsClosed(g: Graph, messages: set<string>, branch: string, msg: Message, task: string)
    ensures Perform(g, messages, branch, msg, Finish(task)) == Closed(g, task, msg.timestamp)
    ensures var edges := ClosedEdges(g.edges, task, msg.timestamp);
            Closed(g, task, msg.timestamp) == if UniqueKeys(edges) then Some(g.(edges := edges)) else None
    ensures Closed(g, task, msg.timestamp).Some? ==> UniqueKeys(Closed(g, task, msg.timestamp).value.edges)
  {
  }
}
