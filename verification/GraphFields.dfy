/** What the graph holds, told by the fields of the messages that were written, without any plan of
    statements: entities, edges and closings. */
module GraphFields {
  import opened GraphHistory
  import opened GraphOutcome
  import opened GraphRows
  import opened GraphWriter
  import opened Records
  import opened Text

  // ---------- what a message asks for ----------

  /** The responder or requester: the one named in the payload, or else the sender; blank if there is neither. */
  function Party(named: string, sender: string): string {
    if !Blank(named) then named else if !Blank(sender) then sender else ""
  }

  predicate AgentRow(name: string, at: string, id: string, row: Entity) {
    !Blank(name) && id == "agent:" + TrimSpace(name) && row == Entity("agent", name, name, at, at, map[])
  }

  predicate TaskRow(
      taskId: string, displayName: string, at: string, attrs: map<string, string>, id: string, row: Entity)
  {
    id == "task:" + TrimSpace(taskId) && row == Entity("task", taskId, displayName, at, at, attrs)
  }

  /** Every message: its topic, its correlation, and its sender if it has one. */
  predicate EnvelopeEntity(msg: Message, id: string, row: Entity) {
    var name, at := if Blank(msg.correlation) then msg.id else TrimSpace(msg.correlation), msg.timestamp;
    || (&& id == (if Blank(msg.topic) then "" else "topic:" + TrimSpace(msg.topic))
        && row == Entity("topic", msg.topic, msg.topic, at, at, map["family" := msg.family]))
    || (&& id == (if Blank(name) then "" else "correlation:" + TrimSpace(name))
        && row == Entity("correlation", name, name, at, at, map[]))
    || AgentRow(msg.sender, at, id, row)
  }

  /** A request: the task, the requester, and the parent task. */
  predicate RequestEntity(msg: Message, p: RequestPayload, id: string, row: Entity) {
    var at := msg.timestamp;
    && !Blank(p.taskId)
    && (|| TaskRow(p.taskId, if Blank(p.description) then p.taskId else p.description, at, map[], id, row)
        || AgentRow(Party(p.requesterId, msg.sender), at, id, row)
        || (!Blank(p.parentTaskId) && TaskRow(p.parentTaskId, p.parentTaskId, at, map[], id, row)))
  }

  predicate ResponseEntity(msg: Message, p: ResponsePayload, id: string, row: Entity) {
    && !Blank(p.taskId)
    && (|| TaskRow(p.taskId, p.taskId, msg.timestamp, map["status" := p.status], id, row)
        || AgentRow(Party(p.responderId, msg.sender), msg.timestamp, id, row))
  }

  predicate StatusEntity(msg: Message, p: StatusPayload, id: string, row: Entity) {
    && !Blank(p.taskId)
    && TaskRow(p.taskId, p.taskId, msg.timestamp, map["status" := p.status, "summary" := p.summary], id, row)
  }

  predicate TraceEntity(msg: Message, p: TracePayload, id: string, row: Entity) {
    var at := msg.timestamp;
    && !Blank(p.traceId) && !Blank(msg.sender)
    && (|| (&& id == "trace:" + TrimSpace(p.traceId)
            && row == Entity("trace", p.traceId, if Blank(p.title) then p.traceId else p.title, at, at,
                             map["span_type" := p.spanType]))
        || AgentRow(msg.sender, at, id, row))
  }

  predicate EntityAsked(e: Event, id: string, row: Entity) {
    && e.Write?
    && (|| EnvelopeEntity(e.msg, id, row)
        || (e.branch == "requests" && e.payload.request.Some? && RequestEntity(e.msg, e.payload.request.value, id, row))
        || (e.branch == "responses" && e.payload.response.Some?
            && ResponseEntity(e.msg, e.payload.response.value, id, row))
        || (e.branch == "traces" && e.payload.trace.Some? && TraceEntity(e.msg, e.payload.trace.value, id, row))
        || (e.branch == "tasks.status" && e.payload.status.Some?
            && StatusEntity(e.msg, e.payload.status.value, id, row)))
  }

  predicate Mentioned(e: Event, src: string, dst: string) {
    && e.Write?
    && var name := if Blank(e.msg.correlation) then e.msg.id else TrimSpace(e.msg.correlation);
       && src == (if Blank(name) then "" else "correlation:" + TrimSpace(name))
       && dst == (if Blank(e.msg.topic) then "" else "topic:" + TrimSpace(e.msg.topic))
  }

  predicate MemberOf(e: Event, src: string, dst: string) {
    && e.Write? && !Blank(e.msg.sender)
    && var name := if Blank(e.msg.correlation) then e.msg.id else TrimSpace(e.msg.correlation);
       && src == "agent:" + TrimSpace(e.msg.sender)
       && dst == (if Blank(name) then "" else "correlation:" + TrimSpace(name))
  }

  predicate Sent(e: Event, src: string, dst: string) {
    && e.Write? && e.branch == "requests" && e.payload.request.Some?
    && var p := e.payload.request.value;
       && !Blank(p.taskId) && !(Blank(p.requesterId) && Blank(e.msg.sender))
       && src == "agent:" + TrimSpace(if Blank(p.requesterId) then e.msg.sender else p.requesterId)
       && dst == "task:" + TrimSpace(p.taskId)
  }

  predicate DelegatedTo(e: Event, src: string, dst: string) {
    && e.Write? && e.branch == "requests" && e.payload.request.Some?
    && var p := e.payload.request.value;
       && !Blank(p.taskId) && !Blank(p.parentTaskId)
       && src == "task:" + TrimSpace(p.parentTaskId) && dst == "task:" + TrimSpace(p.taskId)
  }

  predicate Responded(e: Event, src: string, dst: string) {
    && e.Write? && e.branch == "responses" && e.payload.response.Some?
    && var p := e.payload.response.value;
       && !Blank(p.taskId) && !(Blank(p.responderId) && Blank(e.msg.sender))
       && src == "agent:" + TrimSpace(if Blank(p.responderId) then e.msg.sender else p.responderId)
       && dst == "task:" + TrimSpace(p.taskId)
  }

  predicate Spans(e: Event, src: string, dst: string) {
    && e.Write? && e.branch == "traces" && e.payload.trace.Some?
    && var p := e.payload.trace.value;
       && !Blank(p.traceId) && !Blank(e.msg.sender)
       && src == "agent:" + TrimSpace(e.msg.sender) && dst == "trace:" + TrimSpace(p.traceId)
  }

  predicate EdgeAsked(e: Event, kind: string, src: string, dst: string) {
    || (kind == "mentions" && Mentioned(e, src, dst)) || (kind == "member_of" && MemberOf(e, src, dst))
    || (kind == "sent" && Sent(e, src, dst)) || (kind == "delegated_to" && DelegatedTo(e, src, dst))
    || (kind == "responded" && Responded(e, src, dst)) || (kind == "spans" && Spans(e, src, dst))
  }

  /** The message ends the task. */
  predicate Ends(e: Event, task: string) {
    && e.Write?
    && (|| (&& e.branch == "responses" && e.payload.response.Some?
            && var p := e.payload.response.value;
               && !Blank(p.taskId) && !(Blank(p.responderId) && Blank(e.msg.sender)) && Terminal(p.status)
               && task == "task:" + TrimSpace(p.taskId))
        || (&& e.branch == "tasks.status" && e.payload.status.Some?
            && var p := e.payload.status.value;
               !Blank(p.taskId) && Terminal(p.status) && task == "task:" + TrimSpace(p.taskId)))
  }

  predicate Terminal(status: string) {
    ToLower(TrimSpace(status)) in ["completed", "failed", "cancelled", "canceled"]
  }

  // ---------- the plan asks for just that ----------

  predicate AskedBy(e: Event, a: Action) {
    match a
    case Touch(id, row) => EntityAsked(e, id, row)
    case Join(kind, src, dst) => EdgeAsked(e, kind, src, dst)
    case Finish(task) => Ends(e, task)
  }

  lemma NamesAre(value: string)
    ensures EntityId("topic", value) == if Blank(value) then "" else "topic:" + TrimSpace(value)
    ensures EntityId("correlation", value) == if Blank(value) then "" else "correlation:" + TrimSpace(value)
    ensures EntityId("agent", value) == if Blank(value) then "" else "agent:" + TrimSpace(value)
    ensures EntityId("task", value) == if Blank(value) then "" else "task:" + TrimSpace(value)
    ensures EntityId("trace", value) == if Blank(value) then "" else "trace:" + TrimSpace(value)
  {
    hide TrimSpace;
    assert "topic" + ":" == "topic:" && "correlation" + ":" == "correlation:" && "agent" + ":" == "agent:"
           && "task" + ":" == "task:" && "trace" + ":" == "trace:";
  }

  lemma BlankEmpty()
    ensures Blank("")
  {
  }

  lemma AgentAsks(agent: string, at: string, kind: string, dst: string, a: Action)
    requires !Blank(agent)
    ensures a in AgentJoins(agent, at, kind, dst) <==>
              || (a.Touch? && AgentRow(agent, at, a.id, a.entity))
              || a == Join(kind, "agent:" + TrimSpace(agent), dst)
  {
    NamesAre(agent);
    hide EntityId, Blank, TrimSpace;
  }

  lemma RequestSplits(msg: Message, p: RequestPayload, a: Action)
    ensures var task, requester, at := EntityId("task", p.taskId),
                FirstNonEmpty(p.requesterId, msg.sender), msg.timestamp;
            a in RequestPlan(msg, p) <==>
              && !Blank(p.taskId)
              && (|| a == Seen("task", p.taskId, FirstNonEmpty(p.description, p.taskId), at, map[])
                  || (requester != "" && a in AgentJoins(requester, at, "sent", task))
                  || (!Blank(p.parentTaskId)
                      && (a == Seen("task", p.parentTaskId, p.parentTaskId, at, map[])
                          || a == Join("delegated_to", EntityId("task", p.parentTaskId), task))))
  {
    hide EntityId, Blank, AgentJoins, FirstNonEmpty, Seen;
  }

  lemma RequestAsks(e: Event, a: Action)
    requires e.Write? && e.branch == "requests" && e.payload.request.Some?
    ensures a in RequestPlan(e.msg, e.payload.request.value) <==>
              match a
              case Touch(id, row) => RequestEntity(e.msg, e.payload.request.value, id, row)
              case Join(kind, src, dst) => (kind == "sent" && Sent(e, src, dst))
                                           || (kind == "delegated_to" && DelegatedTo(e, src, dst))
              case Finish(_) => false
  {
    var p, at := e.payload.request.value, e.msg.timestamp;
    RequestSplits(e.msg, p, a);
    TaskSeen(p.taskId, FirstNonEmpty(p.description, p.taskId), at, map[], a);
    TaskSeen(p.parentTaskId, p.parentTaskId, at, map[], a);
    PartyIs(p.requesterId, e.msg.sender);
    FirstOf(p.description, p.taskId);
    NamesAre(p.taskId);
    NamesAre(p.parentTaskId);
    var requester := Party(p.requesterId, e.msg.sender);
    if requester != "" {
      AgentAsks(requester, at, "sent", EntityId("task", p.taskId), a);
    }
    AgentRowIs(a);
    hide EntityId, Blank, TrimSpace, AgentJoins, RequestPlan, TaskRow, AgentRow, Seen, FirstNonEmpty, Party;
  }

  lemma TaskSeen(taskId: string, name: string, at: string, attrs: map<string, string>, a: Action)
    ensures !Blank(taskId) ==>
              (a == Seen("task", taskId, name, at, attrs) <==>
               a.Touch? && TaskRow(taskId, name, at, attrs, a.id, a.entity))
  {
    NamesAre(taskId);
    hide EntityId, Blank, TrimSpace;
  }

  lemma PartyIs(named: string, sender: string)
    ensures FirstNonEmpty(named, sender) == Party(named, sender)
    ensures Party(named, sender) == "" <==> Blank(named) && Blank(sender)
    ensures Party(named, sender) != "" ==>
              !Blank(Party(named, sender)) && Party(named, sender) == if Blank(named) then sender else named
  {
    BlankEmpty();
    hide Blank;
  }

  lemma FirstOf(a: string, b: string)
    ensures !Blank(b) ==> FirstNonEmpty(a, b) == if Blank(a) then b else a
  {
    hide Blank;
  }

  lemma AgentRowIs(a: Action)
    ensures a.Touch? ==> forall name, at :: AgentRow(name, at, a.id, a.entity) ==> !Blank(name) && name != ""
  {
    BlankEmpty();
    hide Blank, TrimSpace;
  }

  lemma ResponseAsks(e: Event, a: Action)
    requires e.Write? && e.branch == "responses" && e.payload.response.Some?
    ensures a in ResponsePlan(e.msg, e.payload.response.value) <==>
              match a
              case Touch(id, row) => ResponseEntity(e.msg, e.payload.response.value, id, row)
              case Join(kind, src, dst) => kind == "responded" && Responded(e, src, dst)
              case Finish(task) => Ends(e, task)
  {
    var p, at := e.payload.response.value, e.msg.timestamp;
    BlankEmpty();
    NamesAre(p.taskId);
    TerminalIs(p.status);
    var responder := FirstNonEmpty(p.responderId, e.msg.sender);
    if responder != "" {
      AgentAsks(responder, at, "responded", EntityId("task", p.taskId), a);
    }
    hide EntityId, Blank, TrimSpace, AgentJoins, IsTerminal, Terminal;
  }

  lemma TerminalIs(status: string)
    ensures IsTerminal(status) <==> Terminal(status)
  {
    hide ToLower, TrimSpace;
  }

  lemma TraceAsks(e: Event, a: Action)
    requires e.Write? && e.branch == "traces" && e.payload.trace.Some?
    ensures a in TracePlan(e.msg, e.payload.trace.value) <==>
              match a
              case Touch(id, row) => TraceEntity(e.msg, e.payload.trace.value, id, row)
              case Join(kind, src, dst) => kind == "spans" && Spans(e, src, dst)
              case Finish(_) => false
  {
    var p, at := e.payload.trace.value, e.msg.timestamp;
    NamesAre(p.traceId);
    if !Blank(e.msg.sender) {
      AgentAsks(e.msg.sender, at, "spans", EntityId("trace", p.traceId), a);
    }
    hide EntityId, Blank, TrimSpace, AgentJoins;
  }

  lemma StatusAsks(e: Event, a: Action)
    requires e.Write? && e.branch == "tasks.status" && e.payload.status.Some?
    ensures a in StatusPlan(e.msg, e.payload.status.value) <==>
              match a
              case Touch(id, row) => StatusEntity(e.msg, e.payload.status.value, id, row)
              case Join(_, _, _) => false
              case Finish(task) => Ends(e, task)
  {
    var p := e.payload.status.value;
    NamesAre(p.taskId);
    TerminalIs(p.status);
    hide EntityId, Blank, TrimSpace, IsTerminal, Terminal;
  }

  lemma BranchAsks(e: Event, a: Action)
    requires e.Write?
    ensures a in BranchPlan(e.branch, e.msg, e.payload) <==>
              match a
              case Touch(id, row) =>
                || (e.branch == "requests" && e.payload.request.Some?
                    && RequestEntity(e.msg, e.payload.request.value, id, row))
                || (e.branch == "responses" && e.payload.response.Some?
                    && ResponseEntity(e.msg, e.payload.response.value, id, row))
                || (e.branch == "traces" && e.payload.trace.Some? && TraceEntity(e.msg, e.payload.trace.value, id, row))
                || (e.branch == "tasks.status" && e.payload.status.Some?
                    && StatusEntity(e.msg, e.payload.status.value, id, row))
              case Join(kind, src, dst) =>
                || (kind == "sent" && Sent(e, src, dst)) || (kind == "delegated_to" && DelegatedTo(e, src, dst))
                || (kind == "responded" && Responded(e, src, dst)) || (kind == "spans" && Spans(e, src, dst))
              case Finish(task) => Ends(e, task)
  {
    if e.branch == "requests" && e.payload.request.Some? {
      RequestAsks(e, a);
    } else if e.branch == "responses" && e.payload.response.Some? {
      ResponseAsks(e, a);
    } else if e.branch == "traces" && e.payload.trace.Some? {
      TraceAsks(e, a);
    } else if e.branch == "tasks.status" && e.payload.status.Some? {
      StatusAsks(e, a);
    }
    hide RequestPlan, ResponsePlan, TracePlan, StatusPlan, RequestEntity, ResponseEntity, TraceEntity, StatusEntity,
         Blank, TrimSpace, Terminal;
  }

  lemma PlanSplits(e: Event, a: Action)
    requires e.Write?
    ensures var msg, at := e.msg, e.msg.timestamp;
            var topic, correlation := EntityId("topic", msg.topic), EntityId("correlation", Correlation(msg));
            a in PlanOf(e) <==>
              || a == Seen("topic", msg.topic, msg.topic, at, map["family" := msg.family])
              || a == Seen("correlation", Correlation(msg), Correlation(msg), at, map[])
              || a == Join("mentions", correlation, topic)
              || (!Blank(msg.sender) && a in AgentJoins(msg.sender, at, "member_of", correlation))
              || a in BranchPlan(e.branch, msg, e.payload)
  {
    hide EntityId, Blank, AgentJoins, BranchPlan, Correlation, Seen;
  }

  lemma EnvelopeAsks(e: Event, a: Action)
    requires e.Write?
    ensures var msg, at := e.msg, e.msg.timestamp;
            var topic, correlation := EntityId("topic", msg.topic), EntityId("correlation", Correlation(msg));
            (|| a == Seen("topic", msg.topic, msg.topic, at, map["family" := msg.family])
             || a == Seen("correlation", Correlation(msg), Correlation(msg), at, map[])
             || a == Join("mentions", correlation, topic)
             || (!Blank(msg.sender) && a in AgentJoins(msg.sender, at, "member_of", correlation))) <==>
              match a
              case Touch(id, row) => EnvelopeEntity(msg, id, row)
              case Join(kind, src, dst) => (kind == "mentions" && Mentioned(e, src, dst))
                                           || (kind == "member_of" && MemberOf(e, src, dst))
              case Finish(_) => false
  {
    var msg := e.msg;
    NamesAre(msg.topic);
    NamesAre(Correlation(msg));
    assert Correlation(msg) == if Blank(msg.correlation) then msg.id else TrimSpace(msg.correlation);
    if !Blank(msg.sender) {
      AgentAsks(msg.sender, msg.timestamp, "member_of", EntityId("correlation", Correlation(msg)), a);
    }
    AgentRowIs(a);
    SeenIs("topic", msg.topic, msg.timestamp, map["family" := msg.family], a);
    SeenIs("correlation", Correlation(msg), msg.timestamp, map[], a);
    hide EntityId, Blank, TrimSpace, AgentJoins, Correlation, Seen, AgentRow;
  }

  lemma SeenIs(kind: string, value: string, at: string, attrs: map<string, string>, a: Action)
    ensures a == Seen(kind, value, value, at, attrs) <==>
            a.Touch? && a.id == EntityId(kind, value) && a.entity == Entity(kind, value, value, at, at, attrs)
  {
    hide EntityId;
  }

  /** The statements of a message are exactly those that its fields ask for. */
  lemma PlanByFields(e: Event, a: Action)
    requires e.Write?
    ensures a in PlanOf(e) <==> AskedBy(e, a)
  {
    PlanSplits(e, a);
    EnvelopeAsks(e, a);
    BranchAsks(e, a);
    hide EntityId, Blank, TrimSpace, AgentJoins, BranchPlan, RequestEntity, ResponseEntity, TraceEntity, StatusEntity,
         EnvelopeEntity, Mentioned, MemberOf, Sent, DelegatedTo, Responded, Spans, Ends, PlanOf, Seen, Correlation;
  }

  // ---------- the edges of a run ----------

  ghost predicate WroteAt(events: seq<Event>, committed: seq<bool>, n: nat, k: nat, at: string) {
    Wrote(events, committed, n, k) && events[k].msg.timestamp == at
  }

  lemma JoinsByFields(e: Event, t: Shape)
    requires e.Write?
    ensures t in JoinsOf(e) <==> t.from == e.msg.timestamp && EdgeAsked(e, t.kind, t.src, t.dst)
  {
    var a := Join(t.kind, t.src, t.dst);
    PlanByFields(e, a);
    hide PlanOf, EdgeAsked;
    if t in JoinsOf(e) {
      var b :| b in PlanOf(e) && b.Join? && ShapeOf(EdgeFor(b, e.msg)) == t;
      assert b == a;
    }
    assert ShapeOf(EdgeFor(a, e.msg)) == Shape(t.kind, t.src, t.dst, e.msg.timestamp);
  }

  lemma EdgeByFields(g: Graph, events: seq<Event>, committed: seq<bool>, n: nat, t: Shape)
    requires EdgesAddUp(g, events, committed, n)
    ensures t in Shapes(g) <==>
              exists k: nat :: WroteAt(events, committed, n, k, t.from) && EdgeAsked(events[k], t.kind, t.src, t.dst)
  {
    hide Shapes, JoinsOf, EdgeAsked;
    if t in Shapes(g) {
      var k: nat :| Wrote(events, committed, n, k) && t in JoinsOf(events[k]);
      JoinsByFields(events[k], t);
      assert WroteAt(events, committed, n, k, t.from);
    }
    if k: nat :| WroteAt(events, committed, n, k, t.from) && EdgeAsked(events[k], t.kind, t.src, t.dst) {
      JoinsByFields(events[k], t);
    }
  }

  /** MAIN RESULT.  In every run, an edge of a kind between two entities that starts at an instant exists
      exactly if a committed write at that instant asked for it: a message mentions its topic, its sender
      is a member of its correlation, a request is sent by its requester and delegated by its parent task,
      a response and a trace come from their agents; and there are no edges of other kinds. */
  lemma EdgesByFields(states: seq<State>, events: seq<Event>, committed: seq<bool>, n: nat)
    requires IsRun(states, events, committed) && n < |states|
    ensures var shapes := Shapes(states[n].graph);
            && (forall src, dst, at :: Shape("mentions", src, dst, at) in shapes <==>
                  exists k: nat :: WroteAt(events, committed, n, k, at) && Mentioned(events[k], src, dst))
            && (forall src, dst, at :: Shape("member_of", src, dst, at) in shapes <==>
                  exists k: nat :: WroteAt(events, committed, n, k, at) && MemberOf(events[k], src, dst))
            && (forall src, dst, at :: Shape("sent", src, dst, at) in shapes <==>
                  exists k: nat :: WroteAt(events, committed, n, k, at) && Sent(events[k], src, dst))
            && (forall src, dst, at :: Shape("delegated_to", src, dst, at) in shapes <==>
                  exists k: nat :: WroteAt(events, committed, n, k, at) && DelegatedTo(events[k], src, dst))
            && (forall src, dst, at :: Shape("responded", src, dst, at) in shapes <==>
                  exists k: nat :: WroteAt(events, committed, n, k, at) && Responded(events[k], src, dst))
            && (forall src, dst, at :: Shape("spans", src, dst, at) in shapes <==>
                  exists k: nat :: WroteAt(events, committed, n, k, at) && Spans(events[k], src, dst))
            && (forall t :: t in shapes ==>
                  t.kind in {"mentions", "member_of", "sent", "delegated_to", "responded", "spans"})
  {
    GraphAddsUp(states, events, committed, n);
    hide IsRun, Shapes, EntitiesAddUp, EdgesAddUp, EdgeAsked, Mentioned, MemberOf, Sent, DelegatedTo, Responded, Spans;
    var g := states[n].graph;
    forall src, dst, at ensures Shape("mentions", src, dst, at) in Shapes(g) <==>
                  exists k: nat :: WroteAt(events, committed, n, k, at) && Mentioned(events[k], src, dst) {
      KindByFields(g, events, committed, n, Shape("mentions", src, dst, at));
    }
    forall src, dst, at ensures Shape("member_of", src, dst, at) in Shapes(g) <==>
                  exists k: nat :: WroteAt(events, committed, n, k, at) && MemberOf(events[k], src, dst) {
      KindByFields(g, events, committed, n, Shape("member_of", src, dst, at));
    }
    forall src, dst, at ensures Shape("sent", src, dst, at) in Shapes(g) <==>
                  exists k: nat :: WroteAt(events, committed, n, k, at) && Sent(events[k], src, dst) {
      KindByFields(g, events, committed, n, Shape("sent", src, dst, at));
    }
    forall src, dst, at ensures Shape("delegated_to", src, dst, at) in Shapes(g) <==>
                  exists k: nat :: WroteAt(events, committed, n, k, at) && DelegatedTo(events[k], src, dst) {
      KindByFields(g, events, committed, n, Shape("delegated_to", src, dst, at));
    }
    forall src, dst, at ensures Shape("responded", src, dst, at) in Shapes(g) <==>
                  exists k: nat :: WroteAt(events, committed, n, k, at) && Responded(events[k], src, dst) {
      KindByFields(g, events, committed, n, Shape("responded", src, dst, at));
    }
    forall src, dst, at ensures Shape("spans", src, dst, at) in Shapes(g) <==>
                  exists k: nat :: WroteAt(events, committed, n, k, at) && Spans(events[k], src, dst) {
      KindByFields(g, events, committed, n, Shape("spans", src, dst, at));
    }
    forall t | t in Shapes(g)
      ensures t.kind in {"mentions", "member_of", "sent", "delegated_to", "responded", "spans"} {
      EdgeByFields(g, events, committed, n, t);
      KindByFields(g, events, committed, n, t);
    }
  }

  lemma KindByFields(g: Graph, events: seq<Event>, committed: seq<bool>, n: nat, t: Shape)
    requires EdgesAddUp(g, events, committed, n)
    ensures t in Shapes(g) ==> t.kind in {"mentions", "member_of", "sent", "delegated_to", "responded", "spans"}
    ensures t.kind == "mentions" ==>
              (t in Shapes(g) <==>
               exists k: nat :: WroteAt(events, committed, n, k, t.from) && Mentioned(events[k], t.src, t.dst))
    ensures t.kind == "member_of" ==>
              (t in Shapes(g) <==>
               exists k: nat :: WroteAt(events, committed, n, k, t.from) && MemberOf(events[k], t.src, t.dst))
    ensures t.kind == "sent" ==>
              (t in Shapes(g) <==>
               exists k: nat :: WroteAt(events, committed, n, k, t.from) && Sent(events[k], t.src, t.dst))
    ensures t.kind == "delegated_to" ==>
              (t in Shapes(g) <==>
               exists k: nat :: WroteAt(events, committed, n, k, t.from) && DelegatedTo(events[k], t.src, t.dst))
    ensures t.kind == "responded" ==>
              (t in Shapes(g) <==>
               exists k: nat :: WroteAt(events, committed, n, k, t.from) && Responded(events[k], t.src, t.dst))
    ensures t.kind == "spans" ==>
              (t in Shapes(g) <==>
               exists k: nat :: WroteAt(events, committed, n, k, t.from) && Spans(events[k], t.src, t.dst))
  {
    EdgeByFields(g, events, committed, n, t);
    hide EdgesAddUp, Shapes, Mentioned, MemberOf, Sent, DelegatedTo, Responded, Spans;
  }

  // ---------- the closings ----------

  /** A write closes exactly the sent, responded and delegated_to edges into the task that it ends. */
  lemma ClosesByFields(e: Event, t: Shape)
    ensures Closes(e, t) <==> t.kind in {"sent", "responded", "delegated_to"} && Ends(e, t.dst)
  {
    if e.Write? {
      PlanByFields(e, Finish(t.dst));
    }
    hide PlanOf;
  }

  // ---------- the entities of a run ----------

  lemma TouchesByFields(e: Event, id: string)
    requires e.Write?
    ensures id in TouchedBy(e) <==> exists row :: EntityAsked(e, id, row)
  {
    hide PlanOf, EntityAsked;
    if id in TouchedBy(e) {
      var a :| a in PlanOf(e) && a.Touch? && a.id == id;
      PlanByFields(e, a);
    }
    if row :| EntityAsked(e, id, row) {
      PlanByFields(e, Touch(id, row));
      assert Touch(id, row).id == id;
    }
  }

  /** An entity before and after one plan: new ones come from a row asked for, known ones keep their name
      and first sighting, and whatever was asked for has the attributes of a row asked for. */
  ghost predicate RowsFrom(g: Graph, g': Graph, plan: seq<Action>) {
    forall id :: id in g'.entities ==>
      && (id in g.entities ==>
            && g'.entities[id].kind == g.entities[id].kind && g'.entities[id].canonicalId == g.entities[id].canonicalId
            && g'.entities[id].firstSeen == g.entities[id].firstSeen)
      && (id !in g.entities ==>
            exists row :: Touch(id, row) in plan && SameBirth(g'.entities[id], row))
      && (id in Touched(plan) ==> exists row :: Touch(id, row) in plan && g'.entities[id].attrs == row.attrs)
      && (id !in Touched(plan) ==> id in g.entities && g'.entities[id] == g.entities[id])
  }

  predicate SameBirth(entity: Entity, row: Entity) {
    entity.kind == row.kind && entity.canonicalId == row.canonicalId && entity.firstSeen == row.firstSeen
  }

  lemma TouchRows(g: Graph, id: string, row: Entity)
    ensures RowsFrom(g, Upserted(g, id, row), [Touch(id, row)])
  {
    hide Less;
    var a := Touch(id, row);
    assert a in [a] && Touched([a]) == {id};
  }

  lemma OtherRows(g: Graph, g': Graph, a: Action)
    requires !a.Touch? && g'.entities == g.entities
    ensures RowsFrom(g, g', [a])
  {
    assert Touched([a]) == {};
  }

  lemma StatementRows(g: Graph, messages: set<string>, branch: string, msg: Message, a: Action)
    requires Sound(g, messages) && Perform(g, messages, branch, msg, a).Some?
    ensures RowsFrom(g, Perform(g, messages, branch, msg, a).value, [a])
  {
    hide Sound, Upserted, RowsFrom, Clashes, KeyOf, UniqueKeys, FindEdge;
    match a
    case Touch(id, row) => TouchRows(g, id, row);
    case Join(_, _, _) => OtherRows(g, Perform(g, messages, branch, msg, a).value, a);
    case Finish(_) => OtherRows(g, Perform(g, messages, branch, msg, a).value, a);
  }

  lemma RowsOn(g: Graph, h: Graph, k: Graph, a: Action, rest: seq<Action>)
    requires RowsFrom(g, h, [a]) && RowsFrom(h, k, rest) && h.entities.Keys <= k.entities.Keys
    requires Touched([a] + rest) == Touched([a]) + Touched(rest)
    requires h.entities.Keys == g.entities.Keys + Touched([a])
    ensures RowsFrom(g, k, [a] + rest)
  {
    hide Touched;
    assert forall b :: b in [a] + rest <==> b in [a] || b in rest;
    forall id | id in k.entities && id in Touched([a] + rest)
      ensures exists row :: Touch(id, row) in [a] + rest && k.entities[id].attrs == row.attrs
    {
      if id in Touched(rest) {
        var row :| Touch(id, row) in rest && k.entities[id].attrs == row.attrs;
        assert Touch(id, row) in [a] + rest;
      } else {
        var row :| Touch(id, row) in [a] && h.entities[id].attrs == row.attrs;
        assert Touch(id, row) in [a] + rest;
      }
    }
    forall id | id in k.entities && id !in g.entities
      ensures exists row :: Touch(id, row) in [a] + rest && SameBirth(k.entities[id], row)
    {
      if id in h.entities {
        var row :| Touch(id, row) in [a] && SameBirth(h.entities[id], row);
        assert Touch(id, row) in [a] + rest;
      } else {
        var row :| Touch(id, row) in rest && SameBirth(k.entities[id], row);
        assert Touch(id, row) in [a] + rest;
      }
    }
  }

  lemma {:induction false} PlanRows(
      g: Graph, messages: set<string>, branch: string, msg: Message, plan: seq<Action>)
    requires Sound(g, messages) && (forall a :: a in plan ==> Proper(a, msg))
    requires PerformAll(g, messages, branch, msg, plan).Some?
    ensures RowsFrom(g, PerformAll(g, messages, branch, msg, plan).value, plan)
    decreases |plan|
  {
    hide Sound, Perform, Proper, Less, Shapes, ShapeOf, EdgeFor, RowsFrom, Touched, Joins;
    if plan == [] {
      NoRows(g);
    } else {
      var a, rest := plan[0], plan[1..];
      var h := Perform(g, messages, branch, msg, a).value;
      PerformKeepsSound(g, messages, branch, msg, a);
      StatementOutcome(g, messages, branch, msg, a);
      PlanOutcome(h, messages, branch, msg, rest);
      StatementRows(g, messages, branch, msg, a);
      PlanRows(h, messages, branch, msg, rest);
      SplitPlan(plan, msg);
      assert plan == [a] + rest;
      RowsOn(g, h, PerformAll(h, messages, branch, msg, rest).value, a, rest);
    }
  }

  lemma NoRows(g: Graph)
    ensures RowsFrom(g, g, [])
  {
  }

  /** The entity was born of write `k` and not asked for before. */
  ghost predicate BornOf(entity: Entity, events: seq<Event>, committed: seq<bool>, n: nat, id: string, k: nat) {
    && Wrote(events, committed, n, k) && (exists row :: EntityAsked(events[k], id, row) && SameBirth(entity, row))
    && forall j: nat :: j < k && Wrote(events, committed, n, j) ==> id !in TouchedBy(events[j])
  }

  /** Write `k` was the last to ask for the entity. */
  ghost predicate LastAsked(entity: Entity, events: seq<Event>, committed: seq<bool>, n: nat, id: string, k: nat) {
    && Wrote(events, committed, n, k) && (exists row :: EntityAsked(events[k], id, row) && entity.attrs == row.attrs)
    && forall j: nat :: k < j && Wrote(events, committed, n, j) ==> id !in TouchedBy(events[j])
  }

  ghost predicate RowsByFields(g: Graph, events: seq<Event>, committed: seq<bool>, n: nat) {
    forall id :: id in g.entities ==>
      && (exists k: nat :: BornOf(g.entities[id], events, committed, n, id, k))
      && (exists k: nat :: LastAsked(g.entities[id], events, committed, n, id, k))
  }

  lemma QuietRows(g: Graph, g': Graph, events: seq<Event>, committed: seq<bool>, n: nat)
    requires 0 < n <= |events| && !Wrote(events, committed, n, n - 1) && g'.entities == g.entities
    requires RowsByFields(g, events, committed, n - 1)
    ensures RowsByFields(g', events, committed, n)
  {
    hide TouchedBy, EntityAsked;
    assert forall k: nat :: Wrote(events, committed, n, k) <==> Wrote(events, committed, n - 1, k);
    forall id | id in g'.entities
      ensures exists k: nat :: BornOf(g'.entities[id], events, committed, n, id, k)
      ensures exists k: nat :: LastAsked(g'.entities[id], events, committed, n, id, k)
    {
      var k: nat :| BornOf(g.entities[id], events, committed, n - 1, id, k);
      assert BornOf(g'.entities[id], events, committed, n, id, k);
      var j: nat :| LastAsked(g.entities[id], events, committed, n - 1, id, j);
      assert LastAsked(g'.entities[id], events, committed, n, id, j);
    }
  }

  lemma AskedTouch(e: Event, id: string, row: Entity)
    requires e.Write?
    ensures Touch(id, row) in PlanOf(e) <==> EntityAsked(e, id, row)
  {
    PlanByFields(e, Touch(id, row));
    hide PlanOf, EntityAsked;
  }

  lemma WriteRows(g: Graph, g': Graph, events: seq<Event>, committed: seq<bool>, n: nat)
    requires 0 < n <= |events| && Wrote(events, committed, n, n - 1)
    requires RowsByFields(g, events, committed, n - 1) && RowsFrom(g, g', PlanOf(events[n - 1]))
    requires forall j: nat, id :: Wrote(events, committed, n - 1, j) && id in TouchedBy(events[j]) ==> id in g.entities
    ensures RowsByFields(g', events, committed, n)
  {
    hide Touched, EntityAsked, PlanOf;
    var e := events[n - 1];
    forall id | id in g'.entities
      ensures exists k: nat :: BornOf(g'.entities[id], events, committed, n, id, k)
      ensures exists k: nat :: LastAsked(g'.entities[id], events, committed, n, id, k)
    {
      if id in g.entities {
        var k: nat :| BornOf(g.entities[id], events, committed, n - 1, id, k);
        assert BornOf(g'.entities[id], events, committed, n, id, k);
      } else {
        var row :| Touch(id, row) in PlanOf(e) && SameBirth(g'.entities[id], row);
        AskedTouch(e, id, row);
        assert BornOf(g'.entities[id], events, committed, n, id, n - 1);
      }
      if id in TouchedBy(e) {
        var row :| Touch(id, row) in PlanOf(e) && g'.entities[id].attrs == row.attrs;
        AskedTouch(e, id, row);
        assert LastAsked(g'.entities[id], events, committed, n, id, n - 1);
      } else {
        var j: nat :| LastAsked(g.entities[id], events, committed, n - 1, id, j);
        assert LastAsked(g'.entities[id], events, committed, n, id, j);
      }
    }
  }

  lemma StepRows(s: State, s': State, events: seq<Event>, committed: seq<bool>, n: nat)
    requires 0 < n <= |events| && |committed| == |events| && Sound(s.graph, s.messages)
    requires if committed[n - 1] then Commits(s, events[n - 1], s') else s' == s
    requires RowsByFields(s.graph, events, committed, n - 1) && EntitiesAddUp(s.graph, events, committed, n - 1)
    ensures RowsByFields(s'.graph, events, committed, n)
  {
    JustWrote(events, committed, n);
    if committed[n - 1] && events[n - 1].Write? {
      var e := events[n - 1];
      PlanIsProper(e.branch, e.msg, e.payload);
      hide Sound, Plan, RowsFrom, RowsByFields, PerformAll, Proper, TouchedBy, Less;
      PlanRows(s.graph, s.messages, e.branch, e.msg, Plan(e.branch, e.msg, e.payload));
      forall j: nat, id | Wrote(events, committed, n - 1, j) && id in TouchedBy(events[j])
        ensures id in s.graph.entities {
        assert Saw(events, committed, n - 1, j, id);
      }
      WriteRows(s.graph, s'.graph, events, committed, n);
    } else {
      hide RowsByFields;
      QuietStep(s, s', events, committed, n);
      QuietRows(s.graph, s'.graph, events, committed, n);
    }
  }

  lemma NothingBorn(events: seq<Event>, committed: seq<bool>)
    ensures RowsByFields(START.graph, events, committed, 0)
  {
  }

  lemma {:induction false} RowsAddUp(states: seq<State>, events: seq<Event>, committed: seq<bool>, n: nat)
    requires IsRun(states, events, committed) && n < |states|
    ensures RowsByFields(states[n].graph, events, committed, n)
  {
    hide *;
    RunShape(states, events, committed);
    if n == 0 {
      NothingBorn(events, committed);
    } else {
      RowsAddUp(states, events, committed, n - 1);
      GraphAddsUp(states, events, committed, n - 1);
      AlwaysSound(states, events, committed, n - 1);
      RunStep(states, events, committed, n - 1);
      StepRows(states[n - 1], states[n], events, committed, n);
    }
  }

  /** MAIN RESULT.  In every run, an entity exists exactly if a committed write asked for it by its fields;
      it has the kind, the canonical id and the first sighting that the first such write gave, the newest
      timestamp of all of them, and attributes that the last one gave. */
  lemma EntitiesByFields(states: seq<State>, events: seq<Event>, committed: seq<bool>, n: nat)
    requires IsRun(states, events, committed) && n < |states|
    ensures var g := states[n].graph;
            && (forall id :: id in g.entities <==>
                  exists k: nat, row :: Wrote(events, committed, n, k) && EntityAsked(events[k], id, row))
            && RowsByFields(g, events, committed, n)
            && (forall id, k: nat, row ::
                  Wrote(events, committed, n, k) && EntityAsked(events[k], id, row) && id in g.entities ==>
                    !Less(g.entities[id].lastSeen, events[k].msg.timestamp))
            && (forall id :: id in g.entities ==>
                  exists k: nat, row :: Wrote(events, committed, n, k) && EntityAsked(events[k], id, row)
                                        && g.entities[id].lastSeen == events[k].msg.timestamp)
  {
    RowsAddUp(states, events, committed, n);
    GraphAddsUp(states, events, committed, n);
    var g := states[n].graph;
    hide IsRun, EntityAsked, Less, TouchedBy, EdgesAddUp, RowsByFields;
    forall k: nat, id | Wrote(events, committed, n, k)
      ensures id in TouchedBy(events[k]) <==> exists row :: EntityAsked(events[k], id, row)
    {
      TouchesByFields(events[k], id);
    }
    forall id, k: nat, row | Wrote(events, committed, n, k) && EntityAsked(events[k], id, row)
      ensures id in g.entities && !Less(g.entities[id].lastSeen, events[k].msg.timestamp)
    {
      assert Saw(events, committed, n, k, id);
    }
    forall id | id in g.entities
      ensures exists k: nat, row :: Wrote(events, committed, n, k) && EntityAsked(events[k], id, row)
                                    && g.entities[id].lastSeen == events[k].msg.timestamp
    {
      var k: nat :| Saw(events, committed, n, k, id) && g.entities[id].lastSeen == events[k].msg.timestamp;
      var row :| EntityAsked(events[k], id, row);
    }
  }
}
