/** How one record changes the snapshot: flows, traces and tasks are folded in, the message
    list is kept sorted and cut to its limit, and the counters move. */
module Ingest {
  import opened Ordering
  import opened Text
  import opened Lists
  import opened Records
  import Topics

  // ---------- records ----------

  datatype Body =
    | Lfs
    | Envelope(kind: string, sender: string, correlation: string, preview: string, payload: Payload)
    | Raw(text: string)
    | Undecodable

  datatype Record = Record(topic: string, partition: int, offset: int, timestamp: string, body: Body)

  function Digit(d: nat): char
    requires d < 10
  {
    "0123456789"[d]
  }

  function Decimal(n: int): string
    decreases n < 0, if n < 0 then -n else n
  {
    if n < 0 then "-" + Decimal(-n)
    else if n < 10 then [Digit(n)]
    else Decimal(n / 10) + [Digit(n % 10)]
  }

  function RecordId(rec: Record): string {
    rec.topic + ":" + Decimal(rec.partition) + ":" + Decimal(rec.offset)
  }

  /** What a record turns into before any state is touched. */
  datatype Decoded = Rejected(reason: string) | Accepted(branch: string, msg: Message, payload: Payload)

  function Decode(rec: Record, groupName: string): Decoded {
    var family := Topics.ClassifyTopic(rec.topic, groupName);
    var id := RecordId(rec);
    if family == "" then Rejected("unknown_topic")
    else match rec.body
      case Lfs =>
        Accepted("lfs", Message(id, rec.topic, family, rec.timestamp, "", "", "", "", "", "", "LFS-backed payload"),
                 NO_PAYLOAD)
      case Raw(text) =>
        Accepted("raw", Message(id, rec.topic, family, rec.timestamp, "", id, "", "", "", "", text), NO_PAYLOAD)
      case Undecodable => Rejected("invalid_envelope")
      case Envelope(kind, sender, correlation, preview, payload) =>
        var msg := Message(id, rec.topic, family, rec.timestamp, sender, FallbackId(correlation, id),
                           "", "", "", "", preview);
        Accepted(family, Enriched(msg, payload), payload)
  }

  /** The message fields that depend on the family's payload. */
  function Enriched(msg: Message, payload: Payload): Message {
    if msg.family == "requests" && payload.request.Some? then
      var p := payload.request.value;
      msg.(taskId := p.taskId, parentTaskId := p.parentTaskId,
           preview := FirstNonEmpty(FirstNonEmpty(p.description, p.content), msg.preview))
    else if msg.family == "responses" && payload.response.Some? then
      var p := payload.response.value;
      msg.(taskId := p.taskId, status := p.status, preview := FirstNonEmpty(p.content, msg.preview))
    else if msg.family == "tasks.status" && payload.status.Some? then
      var p := payload.status.value;
      msg.(taskId := p.taskId, status := p.status,
           preview := FirstNonEmpty(FirstNonEmpty(p.summary, p.status), msg.preview))
    else if msg.family == "traces" && payload.trace.Some? then
      var p := payload.trace.value;
      msg.(traceId := p.traceId, preview := FirstNonEmpty(FirstNonEmpty(p.title, p.content), msg.preview))
    else if msg.family == "observe.audit" then
      msg.(preview := FirstNonEmpty(msg.preview, "audit event"))
    else msg
  }

  // ---------- participant lists ----------

  function AppendUnique(values: seq<string>, next: string): (out: seq<string>)
    ensures values <= out && |out| <= |values| + 1
  {
    var v := TrimSpace(next);
    if v == "" || v in values then values else values + [v]
  }

  /** Trimmed, not blank, no value twice. */
  ghost predicate Clean(values: seq<string>) {
    NoDuplicates(values) && forall v :: v in values ==> v != "" && TrimSpace(v) == v
  }

  lemma AppendUniqueIsClean(values: seq<string>, next: string)
    requires Clean(values)
    ensures Clean(AppendUnique(values, next))
  {
    TrimTwice(next);
  }

  // ---------- flows, traces, tasks ----------

  function FlowId(f: Flow): string { f.id }
  function TraceId(t: Trace): string { t.id }
  function TaskId(t: Task): string { t.id }
  function MessageId(m: Message): string { m.id }

  function TouchFlow(msg: Message): Flow -> Flow {
    (f: Flow) =>
      var topics := AppendUnique(f.topics, msg.topic);
      var senders := AppendUnique(f.senders, msg.sender);
      f.(lastSeen := msg.timestamp, messageCount := f.messageCount + 1,
         latestStatus := FirstNonEmpty(msg.status, f.latestStatus),
         latestPreview := FirstNonEmpty(msg.preview, f.latestPreview),
         topics := topics, senders := senders,
         traceIds := AppendUnique(f.traceIds, msg.traceId), taskIds := AppendUnique(f.taskIds, msg.taskId),
         topicCount := |topics|, senderCount := |senders|)
  }

  function FreshFlow(id: string, timestamp: string): Flow {
    Flow(id, timestamp, timestamp, 0, "", "", [], [], [], [], 0, 0)
  }

  function UpsertFlow(flows: seq<Flow>, msg: Message): seq<Flow> {
    var id := FallbackId(msg.correlation, msg.id);
    Upsert(flows, FlowId, id, FreshFlow(id, msg.timestamp), TouchFlow(msg))
  }

  function TouchTrace(msg: Message, p: TracePayload): Trace -> Trace {
    (t: Trace) =>
      t.(spanCount := t.spanCount + 1,
         agents := AppendUnique(t.agents, msg.sender), spanTypes := AppendUnique(t.spanTypes, p.spanType),
         latestTitle := FirstNonEmpty(p.title, t.latestTitle),
         startedAt := if p.startedAt != "" then p.startedAt else t.startedAt,
         endedAt := if p.endedAt != "" then p.endedAt else t.endedAt,
         durationMs := if p.durationMs > 0 then p.durationMs else t.durationMs)
  }

  predicate NamesNoTrace(msg: Message, payload: Payload) {
    Blank(msg.traceId) || payload.trace.None? || Blank(payload.trace.value.traceId)
  }

  function UpsertTrace(traces: seq<Trace>, msg: Message, payload: Payload): seq<Trace> {
    if NamesNoTrace(msg, payload) then traces
    else
      var p := payload.trace.value;
      Upsert(traces, TraceId, p.traceId, Trace(p.traceId, 0, [], [], "", msg.timestamp, "", 0), TouchTrace(msg, p))
  }

  function TouchTask(msg: Message, payload: Payload): Task -> Task {
    (t0: Task) =>
      var t := t0.(lastSeen := msg.timestamp);
      if msg.family == "requests" && payload.request.Some? then
        var p := payload.request.value;
        t.(parentTaskId := FirstNonEmpty(p.parentTaskId, t.parentTaskId),
           requesterId := FirstNonEmpty(p.requesterId, t.requesterId),
           originalRequesterId := FirstNonEmpty(p.originalRequesterId, t.originalRequesterId),
           description := FirstNonEmpty(p.description, t.description))
      else if msg.family == "responses" && payload.response.Some? then
        var p := payload.response.value;
        t.(responderId := FirstNonEmpty(p.responderId, t.responderId), status := FirstNonEmpty(p.status, t.status),
           lastSummary := FirstNonEmpty(p.content, t.lastSummary))
      else if msg.family == "tasks.status" && payload.status.Some? then
        var p := payload.status.value;
        t.(responderId := FirstNonEmpty(p.responderId, t.responderId), status := FirstNonEmpty(p.status, t.status),
           lastSummary := FirstNonEmpty(p.summary, t.lastSummary))
      else t
  }

  function UpsertTask(tasks: seq<Task>, msg: Message, payload: Payload): seq<Task> {
    if Blank(msg.taskId) then tasks
    else Upsert(tasks, TaskId, msg.taskId,
                Task(msg.taskId, "", "", "", "", "", "", "", msg.timestamp, ""), TouchTask(msg, payload))
  }

  predicate LaterFlow(a: Flow, b: Flow) { Less(b.lastSeen, a.lastSeen) }
  predicate LaterTrace(a: Trace, b: Trace) { Less(b.startedAt, a.startedAt) }
  predicate LaterTask(a: Task, b: Task) { Less(b.lastSeen, a.lastSeen) }
  predicate Newer(a: Message, b: Message) { Less(b.timestamp, a.timestamp) }

  lemma SortOrders()
    ensures StrictWeak(LaterFlow) && StrictWeak(LaterTrace) && StrictWeak(LaterTask) && StrictWeak(Newer)
  {
    LessIsOrder();
  }

  lemma NewestFirst(messages: seq<Message>)
    requires InOrder(messages, Newer)
    ensures forall i, j :: 0 <= i < j < |messages| ==> !Less(messages[i].timestamp, messages[j].timestamp)
  {
    forall i, j | 0 <= i < j < |messages| ensures !Less(messages[i].timestamp, messages[j].timestamp) {
      assert !Newer(messages[j], messages[i]);
    }
  }

  lemma InFlowOrder(flows: seq<Flow>)
    requires InOrder(flows, LaterFlow)
    ensures forall i, j :: 0 <= i < j < |flows| ==> !Less(flows[i].lastSeen, flows[j].lastSeen)
  {
    forall i, j | 0 <= i < j < |flows| ensures !Less(flows[i].lastSeen, flows[j].lastSeen) {
      assert !LaterFlow(flows[j], flows[i]);
    }
  }

  lemma InTraceOrder(traces: seq<Trace>)
    requires InOrder(traces, LaterTrace)
    ensures forall i, j :: 0 <= i < j < |traces| ==> !Less(traces[i].startedAt, traces[j].startedAt)
  {
    forall i, j | 0 <= i < j < |traces| ensures !Less(traces[i].startedAt, traces[j].startedAt) {
      assert !LaterTrace(traces[j], traces[i]);
    }
  }

  lemma InTaskOrder(tasks: seq<Task>)
    requires InOrder(tasks, LaterTask)
    ensures forall i, j :: 0 <= i < j < |tasks| ==> !Less(tasks[i].lastSeen, tasks[j].lastSeen)
  {
    forall i, j | 0 <= i < j < |tasks| ensures !Less(tasks[i].lastSeen, tasks[j].lastSeen) {
      assert !LaterTask(tasks[j], tasks[i]);
    }
  }

  // ---------- one accepted message ----------

  /** The message list after sorting and cutting; which of several equally old messages goes
      is up to the sort. */
  ghost predicate Retained(limit: int, all: seq<Message>, kept: seq<Message>) {
    exists sorted :: Rearranged(sorted, all) && InOrder(sorted, Newer) && kept == Cut(limit, sorted)
  }

  function Cut<T>(limit: int, s: seq<T>): seq<T> {
    if limit > 0 && |s| > limit then s[..limit] else s
  }

  /** What accepting a message may make of a snapshot. */
  ghost predicate AcceptStep(limit: int, doc: Snapshot, msg: Message, payload: Payload, doc': Snapshot) {
    if msg.id in Ids(doc.messages, MessageId) then doc' == doc
    else
      && Rearranged(doc'.flows, UpsertFlow(doc.flows, msg))
      && Rearranged(doc'.traces, UpsertTrace(doc.traces, msg, payload))
      && Rearranged(doc'.tasks, UpsertTask(doc.tasks, msg, payload))
      && Retained(limit, doc.messages + [msg], doc'.messages)
      && doc'.health == doc.health.(accepted := doc.health.accepted + 1)
  }

  method UpdateFlow(flows: seq<Flow>, msg: Message) returns (out: seq<Flow>)
    ensures Rearranged(out, UpsertFlow(flows, msg)) && InOrder(out, LaterFlow)
    ensures forall i, j :: 0 <= i < j < |out| ==> !Less(out[i].lastSeen, out[j].lastSeen)
  {
    hide AppendUnique, FirstNonEmpty, FallbackId, Less, StrictWeak, InOrder, IndexOf;
    var flowId := FallbackId(msg.correlation, msg.id);
    out := flows;
    var i := Find(out, FlowId, flowId);
    if i < 0 {
      out := out + [FreshFlow(flowId, msg.timestamp)];
      i := |out| - 1;
    }
    var item := out[i];
    item := item.(lastSeen := msg.timestamp, messageCount := item.messageCount + 1);
    item := item.(latestStatus := FirstNonEmpty(msg.status, item.latestStatus));
    item := item.(latestPreview := FirstNonEmpty(msg.preview, item.latestPreview));
    item := item.(topics := AppendUnique(item.topics, msg.topic), senders := AppendUnique(item.senders, msg.sender));
    item := item.(traceIds := AppendUnique(item.traceIds, msg.traceId),
                  taskIds := AppendUnique(item.taskIds, msg.taskId));
    item := item.(topicCount := |item.topics|, senderCount := |item.senders|);
    out := out[i := item];
    assert out == UpsertFlow(flows, msg);
    SortOrders();
    hide UpsertFlow, Upsert, TouchFlow;
    out := SortSlice(out, LaterFlow);
    InFlowOrder(out);
  }

  lemma TraceTouched(t: Trace, msg: Message, p: TracePayload)
    ensures TouchTrace(msg, p)(t) ==
            Trace(t.id, t.spanCount + 1, AppendUnique(t.agents, msg.sender), AppendUnique(t.spanTypes, p.spanType),
                  FirstNonEmpty(p.title, t.latestTitle), if p.startedAt != "" then p.startedAt else t.startedAt,
                  if p.endedAt != "" then p.endedAt else t.endedAt,
                  if p.durationMs > 0 then p.durationMs else t.durationMs)
  {
    hide AppendUnique, FirstNonEmpty;
  }

  method UpdateTraceMessage(traces: seq<Trace>, msg: Message, payload: Payload) returns (out: seq<Trace>)
    ensures Rearranged(out, UpsertTrace(traces, msg, payload))
    ensures if NamesNoTrace(msg, payload) then out == traces
            else forall i, j :: 0 <= i < j < |out| ==> !Less(out[i].startedAt, out[j].startedAt)
  {
    hide AppendUnique, FirstNonEmpty, Blank, Less, StrictWeak, InOrder, IndexOf, TouchTrace;
    if Blank(msg.traceId) {
      return traces;
    }
    if payload.trace.None? || Blank(payload.trace.value.traceId) {
      return traces;
    }
    var p := payload.trace.value;
    out := traces;
    var i := Find(out, TraceId, p.traceId);
    if i < 0 {
      out := out + [Trace(p.traceId, 0, [], [], "", msg.timestamp, "", 0)];
      i := |out| - 1;
    }
    var item := out[i];
    ghost var was := item;
    item := item.(spanCount := item.spanCount + 1);
    item := item.(agents := AppendUnique(item.agents, msg.sender));
    item := item.(spanTypes := AppendUnique(item.spanTypes, p.spanType));
    item := item.(latestTitle := FirstNonEmpty(p.title, item.latestTitle));
    if p.startedAt != "" {
      item := item.(startedAt := p.startedAt);
    }
    if p.endedAt != "" {
      item := item.(endedAt := p.endedAt);
    }
    if p.durationMs > 0 {
      item := item.(durationMs := p.durationMs);
    }
    TraceTouched(was, msg, p);
    assert item == TouchTrace(msg, p)(was);
    out := out[i := item];
    assert out == UpsertTrace(traces, msg, payload);
    SortOrders();
    hide UpsertTrace, Upsert;
    out := SortSlice(out, LaterTrace);
    InTraceOrder(out);
  }

  method UpdateTaskMessage(tasks: seq<Task>, msg: Message, payload: Payload) returns (out: seq<Task>)
    ensures Rearranged(out, UpsertTask(tasks, msg, payload))
    ensures if Blank(msg.taskId) then out == tasks
            else forall i, j :: 0 <= i < j < |out| ==> !Less(out[i].lastSeen, out[j].lastSeen)
  {
    hide FirstNonEmpty, Blank, Less, StrictWeak, InOrder, IndexOf;
    if Blank(msg.taskId) {
      return tasks;
    }
    out := tasks;
    var i := Find(out, TaskId, msg.taskId);
    if i < 0 {
      out := out + [Task(msg.taskId, "", "", "", "", "", "", "", msg.timestamp, "")];
      i := |out| - 1;
    }
    var item := out[i].(lastSeen := msg.timestamp);
    if msg.family == "requests" {
      if payload.request.Some? {
        var p := payload.request.value;
        item := item.(parentTaskId := FirstNonEmpty(p.parentTaskId, item.parentTaskId));
        item := item.(requesterId := FirstNonEmpty(p.requesterId, item.requesterId));
        item := item.(originalRequesterId := FirstNonEmpty(p.originalRequesterId, item.originalRequesterId));
        item := item.(description := FirstNonEmpty(p.description, item.description));
      }
    } else if msg.family == "responses" {
      if payload.response.Some? {
        var p := payload.response.value;
        item := item.(responderId := FirstNonEmpty(p.responderId, item.responderId));
        item := item.(status := FirstNonEmpty(p.status, item.status));
        item := item.(lastSummary := FirstNonEmpty(p.content, item.lastSummary));
      }
    } else if msg.family == "tasks.status" {
      if payload.status.Some? {
        var p := payload.status.value;
        item := item.(responderId := FirstNonEmpty(p.responderId, item.responderId));
        item := item.(status := FirstNonEmpty(p.status, item.status));
        item := item.(lastSummary := FirstNonEmpty(p.summary, item.lastSummary));
      }
    }
    out := out[i := item];
    assert out == UpsertTask(tasks, msg, payload);
    SortOrders();
    hide UpsertTask, Upsert, TouchTask;
    out := SortSlice(out, LaterTask);
    InTaskOrder(out);
  }

  /** The closure that the store runs for one message. */
  method AcceptInto(limit: int, doc: Snapshot, msg: Message, payload: Payload) returns (out: Snapshot)
    ensures AcceptStep(limit, doc, msg, payload, out)
    ensures msg.id !in Ids(doc.messages, MessageId) ==>
              forall i, j :: 0 <= i < j < |out.messages| ==> !Less(out.messages[i].timestamp, out.messages[j].timestamp)
  {
    ListedIff(doc.messages, msg.id);
    hide Less, IndexOf, Ids, UpsertFlow, UpsertTrace, UpsertTask, NamesNoTrace, Blank, InOrder, StrictWeak;
    var i := Find(doc.messages, MessageId, msg.id);
    if i >= 0 {
      return doc;
    }
    var flows := UpdateFlow(doc.flows, msg);
    var traces := UpdateTraceMessage(doc.traces, msg, payload);
    var tasks := UpdateTaskMessage(doc.tasks, msg, payload);
    SortOrders();
    var sorted := SortSlice(doc.messages + [msg], Newer);
    var kept := sorted;
    if limit > 0 && |kept| > limit {
      kept := kept[..limit];
    }
    assert Retained(limit, doc.messages + [msg], kept);
    NewestFirst(sorted);
    out := Snapshot(kept, flows, traces, tasks, doc.health.(accepted := doc.health.accepted + 1));
  }

  lemma ListedIff(messages: seq<Message>, id: string)
    ensures IndexOf(messages, MessageId, id) >= 0 <==> id in Ids(messages, MessageId)
  {
    var i := IndexOf(messages, MessageId, id);
    if i >= 0 {
      assert messages[i] in messages && MessageId(messages[i]) == id;
    }
  }
}
