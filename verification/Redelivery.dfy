/** Redelivered records: within the retention window each record counts once. */
module Redelivery {
  import opened Ordering
  import opened Text
  import opened Lists
  import opened Records
  import opened Ingest
  import opened IngestRuns
  import opened Retention

  // ---------- record ids tell records apart ----------

  predicate NoColon(s: string) {
    forall k :: 0 <= k < |s| ==> s[k] != ':'
  }

  function DigitValue(c: char): int {
    c as int - '0' as int
  }

  function Value(s: string): int {
    if s == "" then 0
    else if s[0] == '-' then -Value(s[1..])
    else 10 * Value(s[..|s| - 1]) + DigitValue(s[|s| - 1])
  }

  lemma DigitReadsBack(d: nat)
    requires d < 10
    ensures DigitValue(Digit(d)) == d && Digit(d) != ':' && Digit(d) != '-'
  {
  }

  lemma ValueOfLonger(s: string, d: nat)
    requires s != "" && s[0] != '-' && d < 10
    ensures Value(s + [Digit(d)]) == 10 * Value(s) + d
  {
    DigitReadsBack(d);
    hide Digit, DigitValue;
    assert (s + [Digit(d)])[..|s|] == s;
  }

  lemma {:induction false} DecimalReadsBack(n: int)
    ensures Value(Decimal(n)) == n && NoColon(Decimal(n))
    ensures Decimal(n) != "" && (n >= 0 ==> Decimal(n)[0] != '-')
    decreases n < 0, if n < 0 then -n else n
  {
    hide Digit, DigitValue;
    if n < 0 {
      DecimalReadsBack(-n);
      assert Decimal(n)[1..] == Decimal(-n);
    } else if n < 10 {
      DigitReadsBack(n);
      assert [Digit(n)][..0] == "";
    } else {
      DecimalReadsBack(n / 10);
      DigitReadsBack(n % 10);
      hide Value;
      ValueOfLonger(Decimal(n / 10), n % 10);
    }
  }

  lemma SplitAtLastColon(x: string, y: string, x': string, y': string)
    requires x + ":" + y == x' + ":" + y' && NoColon(y) && NoColon(y')
    ensures x == x' && y == y'
  {
    var s := x + ":" + y;
    assert s[|x|] == ':' && s[|x'|] == ':';
    assert forall k :: |x| < k < |s| ==> s[k] == y[k - |x| - 1];
    assert forall k :: |x'| < k < |s| ==> s[k] == y'[k - |x'| - 1];
    assert |x| == |x'|;
    assert x == s[..|x|] && x' == s[..|x'|];
    assert y == s[|x| + 1..] && y' == s[|x'| + 1..];
  }

  /** Two records have the same id exactly if topic, partition and offset agree, whatever the
      topic is called. */
  lemma RecordIdIsInjective(a: Record, b: Record)
    ensures RecordId(a) == RecordId(b) <==> a.topic == b.topic && a.partition == b.partition && a.offset == b.offset
  {
    DecimalReadsBack(a.partition);
    DecimalReadsBack(b.partition);
    DecimalReadsBack(a.offset);
    DecimalReadsBack(b.offset);
    if RecordId(a) == RecordId(b) {
      SplitAtLastColon(a.topic + ":" + Decimal(a.partition), Decimal(a.offset),
                       b.topic + ":" + Decimal(b.partition), Decimal(b.offset));
      SplitAtLastColon(a.topic, Decimal(a.partition), b.topic, Decimal(b.partition));
    }
  }

  // ---------- the snapshot as tables ----------

  /** A snapshot without order and without participant lists. */
  datatype View = View(
    messages: map<string, Message>, flows: map<string, Flow>, traces: map<string, Trace>, tasks: map<string, Task>,
    accepted: nat)

  const NOTHING := View(map[], map[], map[], map[], 0)

  function CoreFlow(f: Flow): Flow {
    f.(topics := [], senders := [], traceIds := [], taskIds := [], topicCount := 0, senderCount := 0)
  }

  function CoreTrace(t: Trace): Trace {
    t.(agents := [], spanTypes := [])
  }

  ghost function ViewOf(doc: Snapshot): View {
    View(ById(doc.messages, MessageId), Table(doc.flows, FlowId, CoreFlow), Table(doc.traces, TraceId, CoreTrace),
         ById(doc.tasks, TaskId), doc.health.accepted)
  }

  // ---------- the reference: one delivery on the tables ----------

  datatype Delivery = Delivery(msg: Message, payload: Payload)

  function AfterFlow(flows: map<string, Flow>, msg: Message): map<string, Flow> {
    var id := FallbackId(msg.correlation, msg.id);
    flows[id := CoreFlow(TouchFlow(msg)(Lookup(flows, id, FreshFlow(id, msg.timestamp))))]
  }

  function AfterTrace(traces: map<string, Trace>, msg: Message, payload: Payload): map<string, Trace> {
    if Blank(msg.traceId) || payload.trace.None? || Blank(payload.trace.value.traceId) then traces
    else
      var p := payload.trace.value;
      traces[p.traceId := CoreTrace(TouchTrace(msg, p)(
        Lookup(traces, p.traceId, Trace(p.traceId, 0, [], [], "", msg.timestamp, "", 0))))]
  }

  function AfterTask(tasks: map<string, Task>, msg: Message, payload: Payload): map<string, Task> {
    if Blank(msg.taskId) then tasks
    else tasks[msg.taskId := TouchTask(msg, payload)(
      Lookup(tasks, msg.taskId, Task(msg.taskId, "", "", "", "", "", "", "", msg.timestamp, "")))]
  }

  function Deliver(v: View, d: Delivery): View {
    if d.msg.id in v.messages then v
    else View(v.messages[d.msg.id := d.msg], AfterFlow(v.flows, d.msg), AfterTrace(v.traces, d.msg, d.payload),
              AfterTask(v.tasks, d.msg, d.payload), v.accepted + 1)
  }

  function DeliverAll(ds: seq<Delivery>): View {
    if ds == [] then NOTHING else Deliver(DeliverAll(ds[..|ds| - 1]), ds[|ds| - 1])
  }

  function DeliveredIds(ds: seq<Delivery>): set<string> {
    set d | d in ds :: d.msg.id
  }

  /** The deliveries whose record had not been delivered before. */
  function FirstDeliveries(ds: seq<Delivery>): seq<Delivery> {
    if ds == [] then []
    else
      var earlier, last := ds[..|ds| - 1], ds[|ds| - 1];
      FirstDeliveries(earlier) + if last.msg.id in DeliveredIds(earlier) then [] else [last]
  }

  lemma DeliveredMore(ds: seq<Delivery>)
    requires ds != []
    ensures DeliveredIds(ds) == DeliveredIds(ds[..|ds| - 1]) + {ds[|ds| - 1].msg.id}
  {
    assert ds == ds[..|ds| - 1] + [ds[|ds| - 1]];
  }

  lemma {:induction false} DeliverAllKeys(ds: seq<Delivery>)
    ensures DeliverAll(ds).messages.Keys == DeliveredIds(ds)
  {
    if ds != [] {
      DeliverAllKeys(ds[..|ds| - 1]);
      DeliveredMore(ds);
    }
  }

  lemma DeliverRepeat(v: View, d: Delivery)
    ensures d.msg.id in v.messages.Keys ==> Deliver(v, d) == v
  {
  }

  /** On the tables, repeats change nothing. */
  lemma {:induction false} RepeatsAreInvisible(ds: seq<Delivery>)
    ensures DeliverAll(FirstDeliveries(ds)) == DeliverAll(ds)
  {
    if ds != [] {
      var earlier, last := ds[..|ds| - 1], ds[|ds| - 1];
      RepeatsAreInvisible(earlier);
      DeliverAllKeys(earlier);
      DeliverRepeat(DeliverAll(earlier), last);
      DeliverLast(FirstDeliveries(earlier), last);
      hide Deliver, DeliveredIds;
      assert FirstDeliveries(earlier) + [] == FirstDeliveries(earlier);
    }
  }

  lemma {:induction false} FirstsAreSame(ds: seq<Delivery>)
    ensures DeliveredIds(FirstDeliveries(ds)) == DeliveredIds(ds)
  {
    if ds != [] {
      FirstsAreSame(ds[..|ds| - 1]);
      DeliveredMore(ds);
      var firsts := FirstDeliveries(ds[..|ds| - 1]) + [ds[|ds| - 1]];
      assert firsts[..|firsts| - 1] == FirstDeliveries(ds[..|ds| - 1]);
      DeliveredMore(firsts);
      hide DeliveredIds;
      assert FirstDeliveries(ds[..|ds| - 1]) + [] == FirstDeliveries(ds[..|ds| - 1]);
    }
  }

  lemma DeliverLast(ds: seq<Delivery>, last: Delivery)
    ensures DeliverAll(ds + [last]) == Deliver(DeliverAll(ds), last)
  {
    assert (ds + [last])[..|ds|] == ds;
  }

  // ---------- the snapshot refines the tables while nothing is dropped ----------

  /** What a touch does to a flow does not depend on the participants. */
  lemma TouchCoreFlow(msg: Message, f: Flow)
    ensures CoreFlow(TouchFlow(msg)(CoreFlow(f))) == CoreFlow(TouchFlow(msg)(f))
  {
    hide FirstNonEmpty, AppendUnique;
  }

  lemma FlowsRefine(flows: seq<Flow>, msg: Message, flows': seq<Flow>)
    requires DistinctIds(flows, FlowId) && Rearranged(flows', UpsertFlow(flows, msg))
    ensures Table(flows', FlowId, CoreFlow) == AfterFlow(Table(flows, FlowId, CoreFlow), msg)
  {
    hide FirstNonEmpty, AppendUnique, FallbackId, Table, Upsert, DistinctIds;
    var id := FallbackId(msg.correlation, msg.id);
    TouchCoreFlow(msg, Lookup(ById(flows, FlowId), id, FreshFlow(id, msg.timestamp)));
    hide ById, Lookup;
    UpsertOnCore(flows, flows', FlowId, CoreFlow, id, FreshFlow(id, msg.timestamp), TouchFlow(msg));
  }

  lemma TouchCoreTrace(msg: Message, p: TracePayload, t: Trace)
    ensures CoreTrace(TouchTrace(msg, p)(CoreTrace(t))) == CoreTrace(TouchTrace(msg, p)(t))
  {
    hide FirstNonEmpty, AppendUnique;
  }

  lemma TracesRefine(traces: seq<Trace>, msg: Message, payload: Payload, traces': seq<Trace>)
    requires DistinctIds(traces, TraceId) && Rearranged(traces', UpsertTrace(traces, msg, payload))
    ensures Table(traces', TraceId, CoreTrace) == AfterTrace(Table(traces, TraceId, CoreTrace), msg, payload)
  {
    hide FirstNonEmpty, AppendUnique, Blank, Table, Upsert, DistinctIds;
    if Blank(msg.traceId) || payload.trace.None? || Blank(payload.trace.value.traceId) {
      SamePositions(traces, traces, traces', TraceId, CoreTrace);
    } else {
      var p := payload.trace.value;
      var initial := Trace(p.traceId, 0, [], [], "", msg.timestamp, "", 0);
      TouchCoreTrace(msg, p, Lookup(ById(traces, TraceId), p.traceId, initial));
      hide ById, Lookup;
      UpsertOnCore(traces, traces', TraceId, CoreTrace, p.traceId, initial, TouchTrace(msg, p));
    }
  }

  lemma TasksRefine(tasks: seq<Task>, msg: Message, payload: Payload, tasks': seq<Task>)
    requires DistinctIds(tasks, TaskId) && Rearranged(tasks', UpsertTask(tasks, msg, payload))
    ensures ById(tasks', TaskId) == AfterTask(ById(tasks, TaskId), msg, payload)
  {
    hide ById, Upsert, FirstNonEmpty, Blank;
    if !Blank(msg.taskId) {
      UpsertOnTable(tasks, TaskId, msg.taskId, Task(msg.taskId, "", "", "", "", "", "", "", msg.timestamp, ""),
                    TouchTask(msg, payload));
    }
    Reordered(UpsertTask(tasks, msg, payload), tasks', TaskId);
  }

  lemma MessagesRefine(limit: int, messages: seq<Message>, msg: Message, kept: seq<Message>)
    requires DistinctIds(messages, MessageId) && msg.id !in Ids(messages, MessageId)
    requires Retained(limit, messages + [msg], kept) && (limit <= 0 || |messages| < limit)
    ensures ById(kept, MessageId) == ById(messages, MessageId)[msg.id := msg]
  {
    forall j | 0 <= j < |messages| ensures MessageId(messages[j]) != msg.id {
      assert messages[j] in messages;
    }
    Appended(messages, msg, MessageId);
    var sorted :| Rearranged(sorted, messages + [msg]) && InOrder(sorted, Newer) && kept == Cut(limit, sorted);
    hide ById, InOrder;
    SameMembers(sorted, messages + [msg]);
    Reordered(messages + [msg], sorted, MessageId);
  }

  lemma AcceptRefines(limit: int, doc: Snapshot, msg: Message, payload: Payload, doc': Snapshot)
    requires Sound(doc) && AcceptStep(limit, doc, msg, payload, doc')
    requires msg.id in Ids(doc.messages, MessageId) || limit <= 0 || |doc.messages| < limit
    ensures ViewOf(doc') == Deliver(ViewOf(doc), Delivery(msg, payload))
  {
    assert msg.id in Ids(doc.messages, MessageId) <==> msg.id in ById(doc.messages, MessageId);
    hide ById, Ids, UpsertFlow, UpsertTrace, UpsertTask, Retained, Table, AfterFlow, AfterTrace, AfterTask;
    if msg.id !in Ids(doc.messages, MessageId) {
      FlowsRefine(doc.flows, msg, doc'.flows);
      TracesRefine(doc.traces, msg, payload, doc'.traces);
      TasksRefine(doc.tasks, msg, payload, doc'.tasks);
      MessagesRefine(limit, doc.messages, msg, doc'.messages);
    }
  }

  lemma ReadFlowsTable(flows: seq<Flow>, lost: set<string>, flows': seq<Flow>)
    requires DistinctIds(flows, FlowId) && Rearranged(flows', ReadFlows(flows, lost))
    ensures Table(flows', FlowId, CoreFlow) == Table(flows, FlowId, CoreFlow)
  {
    hide SortStrings, Table, DistinctIds;
    SamePositions(flows, ReadFlows(flows, lost), flows', FlowId, CoreFlow);
  }

  lemma ReadTracesTable(traces: seq<Trace>, lost: set<string>, traces': seq<Trace>)
    requires DistinctIds(traces, TraceId) && Rearranged(traces', ReadTraces(traces, lost))
    ensures Table(traces', TraceId, CoreTrace) == Table(traces, TraceId, CoreTrace)
  {
    hide SortStrings, Table, DistinctIds;
    SamePositions(traces, ReadTraces(traces, lost), traces', TraceId, CoreTrace);
  }

  lemma ReloadRefines(doc: Snapshot, lostFlows: set<string>, lostTraces: set<string>, doc': Snapshot)
    requires Sound(doc) && ReloadStep(doc, lostFlows, lostTraces, doc')
    ensures ViewOf(doc') == ViewOf(doc)
  {
    hide ById, Table, ReadFlows, ReadTraces, SoundFlow, SoundTrace;
    ReadFlowsTable(doc.flows, lostFlows, doc'.flows);
    ReadTracesTable(doc.traces, lostTraces, doc'.traces);
    Reordered(doc.tasks, doc'.tasks, TaskId);
    Reordered(doc.messages, doc'.messages, MessageId);
  }

  // ---------- runs ----------

  /** The records whose first transaction committed, in order, repeats included. */
  ghost function Deliveries(events: seq<Event>, committed: seq<bool>): seq<Delivery>
    requires |events| == |committed|
  {
    if events == [] then []
    else
      var n := |events| - 1;
      Deliveries(events[..n], committed[..n]) + Delivered(events[n], committed[n])
  }

  lemma {:induction false} DeliveredIdsGrow(events: seq<Event>, committed: seq<bool>, i: nat)
    requires |events| == |committed| && i <= |events|
    ensures DeliveredIds(Deliveries(events[..i], committed[..i])) <= DeliveredIds(Deliveries(events, committed))
    decreases |events|
  {
    if i < |events| {
      var n := |events| - 1;
      DeliveredIdsGrow(events[..n], committed[..n], i);
      assert events[..n][..i] == events[..i] && committed[..n][..i] == committed[..i];
    } else {
      assert events[..i] == events && committed[..i] == committed;
    }
  }

  lemma ViewSize(doc: Snapshot)
    requires Sound(doc)
    ensures |ViewOf(doc).messages.Keys| == |doc.messages|
    ensures forall id :: id in ViewOf(doc).messages <==> id in Ids(doc.messages, MessageId)
  {
    CountIds(doc.messages, MessageId);
    assert ViewOf(doc).messages.Keys == Ids(doc.messages, MessageId);
  }

  /** While the distinct records delivered fit into the window, the snapshot is what the
      deliveries make of the tables. */
  lemma {:induction false} RunRefines(limit: int, states: seq<State>, events: seq<Event>, committed: seq<bool>, i: nat)
    requires IsRun(limit, states, events, committed) && i < |states|
    requires limit <= 0 || |DeliveredIds(Deliveries(events, committed))| <= limit
    ensures ViewOf(states[i].doc) == DeliverAll(Deliveries(events[..i], committed[..i]))
  {
    hide IsRun, Sound, Balanced, ViewOf, Deliveries, Commits, DeliveredIds, DeliverAll;
    RunShape(limit, states, events, committed);
    if i > 0 {
      var n := i - 1;
      RunRefines(limit, states, events, committed, n);
      RunStep(limit, states, events, committed, n);
      AccountsBalance(limit, states, events, committed, n);
      DeliveredIdsGrow(events, committed, i);
      DeliveriesStep(events, committed, n);
      if committed[n] {
        StepRefines(limit, states[n], events[n], states[i], Deliveries(events[..n], committed[..n]),
                    DeliveredIds(Deliveries(events, committed)));
      }
    } else {
      EmptyView();
      NoDeliveries(events, committed);
    }
  }

  lemma NoDeliveries(events: seq<Event>, committed: seq<bool>)
    requires |events| == |committed|
    ensures DeliverAll(Deliveries(events[..0], committed[..0])) == NOTHING
  {
    assert events[..0] == [] && committed[..0] == [];
  }

  lemma DeliveriesStep(events: seq<Event>, committed: seq<bool>, n: nat)
    requires |events| == |committed| && n < |events|
    ensures Deliveries(events[..n + 1], committed[..n + 1]) ==
            Deliveries(events[..n], committed[..n]) + Delivered(events[n], committed[n])
    ensures !committed[n] ==> Deliveries(events[..n + 1], committed[..n + 1]) == Deliveries(events[..n], committed[..n])
  {
    assert events[..n + 1][..n] == events[..n] && committed[..n + 1][..n] == committed[..n];
  }

  /** What one step delivers. */
  function Delivered(e: Event, committed: bool): seq<Delivery> {
    if committed && e.Accept? then [Delivery(e.msg, e.payload)] else []
  }

  lemma StepRefines(limit: int, s: State, e: Event, s': State, before: seq<Delivery>, all: set<string>)
    requires Sound(s.doc) && Commits(limit, s, e, s') && ViewOf(s.doc) == DeliverAll(before)
    requires DeliveredIds(before + Delivered(e, true)) <= all && (limit <= 0 || |all| <= limit)
    ensures ViewOf(s'.doc) == DeliverAll(before + Delivered(e, true))
  {
    if e.Accept? {
      assert AcceptStep(limit, s.doc, e.msg, e.payload, s'.doc);
      hide Sound, ViewOf, Commits, AcceptStep, DeliveredIds;
      var after := before + Delivered(e, true);
      assert after[..|after| - 1] == before;
      DeliverAllKeys(before);
      DeliveredMore(after);
      ViewSize(s.doc);
      if e.msg.id !in DeliveredIds(before) {
        FitsInto(DeliveredIds(before), e.msg.id, all);
      }
      AcceptRefines(limit, s.doc, e.msg, e.payload, s'.doc);
    } else {
      OtherRefines(limit, s, e, s');
      assert before + [] == before;
    }
  }

  lemma EmptyView()
    ensures ViewOf(EMPTY) == NOTHING
  {
  }

  lemma FitsInto(ids: set<string>, id: string, all: set<string>)
    requires id !in ids && ids + {id} <= all
    ensures |ids| < |all|
  {
    assert all == ids + {id} + (all - ids - {id});
  }

  lemma OtherRefines(limit: int, s: State, e: Event, s': State)
    requires Sound(s.doc) && Commits(limit, s, e, s') && !e.Accept?
    ensures ViewOf(s'.doc) == ViewOf(s.doc)
  {
    if e.Reload? {
      ReloadRefines(s.doc, e.lostFlows, e.lostTraces, s'.doc);
    }
  }

  /** MAIN RESULT.  A run that delivers some records repeatedly and a run that delivers only their
      first occurrences end with the same messages, the same flows, traces and tasks with the same
      counts, and the same accepted count; whatever else the two runs interleave, as long as the
      distinct records fit into the window. */
  lemma ExactlyOnce(
      limit: int,
      states: seq<State>, events: seq<Event>, committed: seq<bool>,
      states': seq<State>, events': seq<Event>, committed': seq<bool>)
    requires IsRun(limit, states, events, committed) && IsRun(limit, states', events', committed')
    requires |committed| == |events| && |committed'| == |events'|
    requires |states| == |events| + 1 && |states'| == |events'| + 1
    requires Deliveries(events', committed') == FirstDeliveries(Deliveries(events, committed))
    requires limit <= 0 || |DeliveredIds(Deliveries(events, committed))| <= limit
    ensures ViewOf(states'[|events'|].doc) == ViewOf(states[|events|].doc)
    ensures states[|events|].doc.health.accepted == |DeliveredIds(Deliveries(events, committed))|
  {
    hide *;
    var ds := Deliveries(events, committed);
    FirstsAreSame(ds);
    RepeatsAreInvisible(ds);
    WholeRun(limit, states, events, committed);
    WholeRun(limit, states', events', committed');
    AcceptedIsDistinct(ds);
    ViewAccepted(states[|events|].doc);
  }

  lemma WholeRun(limit: int, states: seq<State>, events: seq<Event>, committed: seq<bool>)
    requires IsRun(limit, states, events, committed) && |committed| == |events| && |states| == |events| + 1
    requires limit <= 0 || |DeliveredIds(Deliveries(events, committed))| <= limit
    ensures ViewOf(states[|events|].doc) == DeliverAll(Deliveries(events, committed))
  {
    RunRefines(limit, states, events, committed, |events|);
    hide *;
    assert events[..|events|] == events && committed[..|events|] == committed;
  }

  lemma ViewAccepted(doc: Snapshot)
    ensures ViewOf(doc).accepted == doc.health.accepted
  {
  }

  lemma {:induction false} AcceptedIsDistinct(ds: seq<Delivery>)
    ensures DeliverAll(ds).accepted == |DeliveredIds(ds)|
  {
    if ds != [] {
      var earlier, id := ds[..|ds| - 1], ds[|ds| - 1].msg.id;
      AcceptedIsDistinct(earlier);
      DeliverAllKeys(earlier);
      DeliveredMore(ds);
      assert id in DeliveredIds(earlier) ==> DeliveredIds(ds) == DeliveredIds(earlier);
    }
  }

  /** Some accepted record would count again if redelivered, exactly if more distinct records
      have been accepted than the window holds. */
  lemma WindowIsExact(limit: int, s: State)
    requires NewestRetained(limit, s)
    ensures (exists id :: id in s.accepted && id !in Ids(s.doc.messages, MessageId)) <==>
            limit > 0 && |s.accepted| > limit
  {
    CountIds(s.doc.messages, MessageId);
    var ids := Ids(s.doc.messages, MessageId);
    assert ids <= s.accepted.Keys;
    if ids == s.accepted.Keys {
      assert |ids| == |s.accepted|;
    } else {
      var id :| id in s.accepted.Keys && id !in ids;
      FitsInto(ids, id, s.accepted.Keys);
    }
  }

  // ---------- a window of one ----------

  lemma SomeRetained(limit: int, all: seq<Message>) returns (kept: seq<Message>)
    ensures Retained(limit, all, kept)
  {
    SortOrders();
    SortSorts(all, Newer);
    kept := Cut(limit, Sort(all, Newer));
    hide Sort, InOrder, StrictWeak, Newer;
  }

  lemma AcceptedSnapshot(limit: int, doc: Snapshot, msg: Message, payload: Payload, kept: seq<Message>)
    returns (doc': Snapshot)
    requires msg.id !in Ids(doc.messages, MessageId) && Retained(limit, doc.messages + [msg], kept)
    ensures AcceptStep(limit, doc, msg, payload, doc')
  {
    hide Retained, UpsertFlow, UpsertTrace, UpsertTask, Ids;
    doc' := Snapshot(kept, UpsertFlow(doc.flows, msg), UpsertTrace(doc.traces, msg, payload),
                     UpsertTask(doc.tasks, msg, payload), doc.health.(accepted := doc.health.accepted + 1));
  }

  /** Every record can be accepted. */
  lemma Accepting(limit: int, s: State, msg: Message, payload: Payload) returns (s': State)
    ensures Commits(limit, s, Accept(msg, payload), s')
  {
    s' := s;
    if msg.id !in Ids(s.doc.messages, MessageId) {
      hide Retained, AcceptStep, Ids;
      var kept := SomeRetained(limit, s.doc.messages + [msg]);
      var doc := AcceptedSnapshot(limit, s.doc, msg, payload, kept);
      s' := State(doc, s.accepted[msg.id := msg.timestamp]);
    }
  }

  /** Of two messages a window of one keeps the newer, whichever comes last. */
  lemma OnlyNewest(s: State, msg: Message, payload: Payload, s': State, newest: Message)
    requires Commits(1, s, Accept(msg, payload), s') && |s.doc.messages| <= 1
    requires forall m :: m in s.doc.messages ==> m.id != msg.id
    requires newest in s.doc.messages + [msg]
    requires forall m :: m in s.doc.messages + [msg] && m != newest ==> Newer(newest, m)
    ensures s'.doc.messages == [newest]
    ensures s'.doc.health.accepted == s.doc.health.accepted + 1 && s'.accepted == s.accepted[msg.id := msg.timestamp]
  {
    RetainedMessages(1, s.doc.messages, msg, s'.doc.messages);
    hide Less, Retained, UpsertFlow, UpsertTrace, UpsertTask;
    var kept := s'.doc.messages;
    var only := kept[0];
    assert only in s.doc.messages + [msg] && only in kept && kept == [only];
    assert newest == only || newest !in kept;
  }

  lemma NewerOnly(older: Message, newer: Message)
    requires Less(older.timestamp, newer.timestamp)
    ensures Newer(newer, older) && !Newer(older, newer)
  {
    LessTotal(older.timestamp, newer.timestamp);
  }

  /** For any two records: with a window of one, the older one is dropped when the newer one comes,
      and counts a second time when it is redelivered. */
  lemma DroppedRecordCountsTwice(older: Message, newer: Message) returns (states: seq<State>, events: seq<Event>)
    requires older.id != newer.id && Less(older.timestamp, newer.timestamp)
    ensures events == [Accept(older, NO_PAYLOAD), Accept(newer, NO_PAYLOAD), Accept(older, NO_PAYLOAD)]
    ensures |states| == 4 && IsRun(1, states, events, [true, true, true])
    ensures states[2].doc.messages == [newer] && states[3].doc.health.accepted == 3 && |states[3].accepted| == 2
  {
    hide *;
    NewerOnly(older, newer);
    StartIsEmpty();
    var s1 := Accepting(1, START, older, NO_PAYLOAD);
    OnlyNewest(START, older, NO_PAYLOAD, s1, older);
    var s2 := Accepting(1, s1, newer, NO_PAYLOAD);
    OnlyNewest(s1, newer, NO_PAYLOAD, s2, newer);
    var s3 := Accepting(1, s2, older, NO_PAYLOAD);
    OnlyNewest(s2, older, NO_PAYLOAD, s3, newer);
    states, events := [START, s1, s2, s3],
        [Accept(older, NO_PAYLOAD), Accept(newer, NO_PAYLOAD), Accept(older, NO_PAYLOAD)];
    StepByStep(1, states, events, [true, true, true]);
    assert s3.accepted.Keys == {older.id, newer.id};
    assert |s3.accepted| == |s3.accepted.Keys|;
  }

  lemma StartIsEmpty()
    ensures START.doc.messages == [] && START.doc.health.accepted == 0 && START.accepted == map[]
  {
  }

  lemma StepByStep(limit: int, states: seq<State>, events: seq<Event>, committed: seq<bool>)
    requires |states| == |events| + 1 && |committed| == |events| && states[0] == START
    requires forall i :: 0 <= i < |events| ==> committed[i] && Commits(limit, states[i], events[i], states[i + 1])
    ensures IsRun(limit, states, events, committed)
  {
    hide Commits;
  }

  /** For any two records: with a window of one, an older record that comes after the newer one is
      accepted, counted, and not retained for a moment. */
  lemma DroppedAtOnce(older: Message, newer: Message) returns (states: seq<State>, events: seq<Event>)
    requires older.id != newer.id && Less(older.timestamp, newer.timestamp)
    ensures events == [Accept(newer, NO_PAYLOAD), Accept(older, NO_PAYLOAD)]
    ensures |states| == 3 && IsRun(1, states, events, [true, true])
    ensures states[2].doc.messages == [newer] && states[2].doc.health.accepted == 2 && older.id in states[2].accepted
  {
    hide *;
    NewerOnly(older, newer);
    StartIsEmpty();
    var s1 := Accepting(1, START, newer, NO_PAYLOAD);
    OnlyNewest(START, newer, NO_PAYLOAD, s1, newer);
    var s2 := Accepting(1, s1, older, NO_PAYLOAD);
    OnlyNewest(s1, older, NO_PAYLOAD, s2, newer);
    states, events := [START, s1, s2], [Accept(newer, NO_PAYLOAD), Accept(older, NO_PAYLOAD)];
    StepByStep(1, states, events, [true, true]);
  }
}
