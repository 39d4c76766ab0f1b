/** What every run of the ingest keeps, whatever the interleaving of the live loop and the
    replays.  Each step is one transaction of the store, which either commits or changes
    nothing; the loops are free to take their steps in any order.
 */
module IngestRuns {
  import opened Ordering
  import opened Text
  import opened Lists
  import opened Records
  import opened Ingest

  datatype Event =
    | Accept(msg: Message, payload: Payload)     // the first transaction of an accepted record
    | Reject(reason: string, mirrored: bool)     // the live loop's bookkeeping for a rejected record
    | Reload(lostFlows: set<string>, lostTraces: set<string>)
                                                 // a transaction on other tables, then a re-read
    | Heartbeat                                  // any other update of the snapshot

  /** `accepted` remembers every record ever accepted, with its timestamp. */
  datatype State = State(doc: Snapshot, accepted: map<string, string>)

  const START := State(EMPTY, map[])

  // ---------- the steps ----------

  ghost predicate RejectStep(doc: Snapshot, reason: string, mirrored: bool, doc': Snapshot) {
    var h := doc.health;
    doc' == doc.(health := h.(
      rejected := h.rejected + 1, rejectedByReason := h.rejectedByReason + multiset{reason},
      mirrored := h.mirrored + (if mirrored then 1 else 0),
      mirrorFailed := h.mirrorFailed + (if mirrored then 0 else 1)))
  }

  /** A flow read back.  Participants come back sorted, or not at all: the reader keeps
      pointers into a list that may move while it grows. */
  function ReadFlow(f: Flow, lost: bool): Flow {
    if lost then f.(topics := [], senders := [], traceIds := [], taskIds := [], topicCount := 0, senderCount := 0)
    else f.(topics := SortStrings(f.topics), senders := SortStrings(f.senders),
            traceIds := SortStrings(f.traceIds), taskIds := SortStrings(f.taskIds),
            topicCount := |f.topics|, senderCount := |f.senders|)
  }

  function ReadTrace(t: Trace, lost: bool): Trace {
    if lost then t.(agents := [], spanTypes := [])
    else t.(agents := SortStrings(t.agents), spanTypes := SortStrings(t.spanTypes))
  }

  function ReadFlows(flows: seq<Flow>, lost: set<string>): seq<Flow> {
    seq(|flows|, i requires 0 <= i < |flows| => ReadFlow(flows[i], flows[i].id in lost))
  }

  function ReadTraces(traces: seq<Trace>, lost: set<string>): seq<Trace> {
    seq(|traces|, i requires 0 <= i < |traces| => ReadTrace(traces[i], traces[i].id in lost))
  }

  /** A re-read that loses the participant lists of some flows and traces. */
  ghost predicate ReloadStep(doc: Snapshot, lostFlows: set<string>, lostTraces: set<string>, doc': Snapshot) {
    && Rearranged(doc'.messages, doc.messages) && InOrder(doc'.messages, Newer)
    && Rearranged(doc'.flows, ReadFlows(doc.flows, lostFlows))
    && Rearranged(doc'.traces, ReadTraces(doc.traces, lostTraces))
    && Rearranged(doc'.tasks, doc.tasks)
    && doc'.health == doc.health
  }

  /** A committed step. */
  ghost predicate Commits(limit: int, s: State, e: Event, s': State) {
    match e
    case Accept(msg, payload) =>
      && AcceptStep(limit, s.doc, msg, payload, s'.doc)
      && s'.accepted ==
         if msg.id in Ids(s.doc.messages, MessageId) then s.accepted else s.accepted[msg.id := msg.timestamp]
    case Reject(reason, mirrored) => RejectStep(s.doc, reason, mirrored, s'.doc) && s'.accepted == s.accepted
    case Reload(flows, traces) => ReloadStep(s.doc, flows, traces, s'.doc) && s'.accepted == s.accepted
    case Heartbeat => s' == s
  }

  /** `committed[i]` says whether transaction `i` went through. */
  ghost predicate IsRun(limit: int, states: seq<State>, events: seq<Event>, committed: seq<bool>) {
    && |states| == |events| + 1 && |committed| == |events| && states[0] == START
    && forall i :: 0 <= i < |events| ==>
         if committed[i] then Commits(limit, states[i], events[i], states[i + 1]) else states[i + 1] == states[i]
  }

  // ---------- the snapshot stays well-formed and its counters add up ----------

  ghost predicate SoundFlow(f: Flow) {
    && Clean(f.topics) && Clean(f.senders) && Clean(f.traceIds) && Clean(f.taskIds)
    && f.topicCount == |f.topics| && f.senderCount == |f.senders|
  }

  ghost predicate SoundTrace(t: Trace) {
    Clean(t.agents) && Clean(t.spanTypes)
  }

  /** Every id occurs once; participant lists are trimmed, free of blanks and duplicates, and counted. */
  ghost predicate Sound(doc: Snapshot) {
    && DistinctIds(doc.messages, MessageId) && DistinctIds(doc.flows, FlowId)
    && DistinctIds(doc.traces, TraceId) && DistinctIds(doc.tasks, TaskId)
    && (forall f :: f in doc.flows ==> SoundFlow(f))
    && (forall t :: t in doc.traces ==> SoundTrace(t))
  }

  function Weight(f: Flow): nat {
    f.messageCount
  }

  ghost predicate Balanced(doc: Snapshot) {
    && Total(doc.flows, Weight) == doc.health.accepted
    && |doc.messages| <= doc.health.accepted
    && doc.health.rejected == |doc.health.rejectedByReason|
    && doc.health.rejected == doc.health.mirrored + doc.health.mirrorFailed
  }

  lemma SortedIsClean(values: seq<string>)
    requires Clean(values)
    ensures Clean(SortStrings(values)) && |SortStrings(values)| == |values|
  {
    StringsSorted(values);
    LessIsOrder();
  }

  lemma ReadFlowIsSound(f: Flow, lost: bool)
    requires SoundFlow(f)
    ensures SoundFlow(ReadFlow(f, lost)) && ReadFlow(f, lost).id == f.id
    ensures ReadFlow(f, lost).messageCount == f.messageCount
  {
    hide SortStrings, Clean;
    EmptyIsClean();
    SortedIsClean(f.topics);
    SortedIsClean(f.senders);
    SortedIsClean(f.traceIds);
    SortedIsClean(f.taskIds);
  }

  lemma EmptyIsClean()
    ensures Clean([])
  {
  }

  lemma ReadTraceIsSound(t: Trace, lost: bool)
    requires SoundTrace(t)
    ensures SoundTrace(ReadTrace(t, lost)) && ReadTrace(t, lost).id == t.id
  {
    hide SortStrings, Clean;
    EmptyIsClean();
    SortedIsClean(t.agents);
    SortedIsClean(t.spanTypes);
  }

  lemma TouchedFlowIsSound(f: Flow, msg: Message)
    requires SoundFlow(f)
    ensures SoundFlow(TouchFlow(msg)(f))
  {
    AppendUniqueIsClean(f.topics, msg.topic);
    AppendUniqueIsClean(f.senders, msg.sender);
    AppendUniqueIsClean(f.traceIds, msg.traceId);
    AppendUniqueIsClean(f.taskIds, msg.taskId);
    hide AppendUnique, Clean;
  }

  lemma TouchedTraceIsSound(t: Trace, msg: Message, p: TracePayload)
    requires SoundTrace(t)
    ensures SoundTrace(TouchTrace(msg, p)(t))
  {
    AppendUniqueIsClean(t.agents, msg.sender);
    AppendUniqueIsClean(t.spanTypes, p.spanType);
    hide AppendUnique, Clean;
  }

  /** Everything in an upserted list was there before, or is the one touched element. */
  lemma UpsertMembers<T>(xs: seq<T>, id: T -> string, key: string, initial: T, touch: T -> T)
    ensures forall y :: y in Upsert(xs, id, key, initial, touch) ==>
              y in xs || y == touch(initial) || exists x :: x in xs && y == touch(x)
  {
  }

  lemma FlowsStaySound(flows: seq<Flow>, msg: Message, flows': seq<Flow>)
    requires DistinctIds(flows, FlowId) && (forall f :: f in flows ==> SoundFlow(f))
    requires Rearranged(flows', UpsertFlow(flows, msg))
    ensures DistinctIds(flows', FlowId) && forall f :: f in flows' ==> SoundFlow(f)
  {
    var id := FallbackId(msg.correlation, msg.id);
    var initial := FreshFlow(id, msg.timestamp);
    var ys := UpsertFlow(flows, msg);
    UpsertOnTable(flows, FlowId, id, initial, TouchFlow(msg));
    UpsertMembers(flows, FlowId, id, initial, TouchFlow(msg));
    EmptyIsClean();
    assert SoundFlow(initial);
    forall f | SoundFlow(f) ensures SoundFlow(TouchFlow(msg)(f)) {
      TouchedFlowIsSound(f, msg);
    }
    hide SoundFlow, TouchFlow, Upsert, ById, UpsertFlow;
    Reordered(ys, flows', FlowId);
    SameMembers(ys, flows');
  }

  lemma FlowsCount(flows: seq<Flow>, msg: Message, flows': seq<Flow>)
    requires Rearranged(flows', UpsertFlow(flows, msg))
    ensures Total(flows', Weight) == Total(flows, Weight) + 1
  {
    var id := FallbackId(msg.correlation, msg.id);
    var i := IndexOf(flows, FlowId, id);
    TotalReordered(UpsertFlow(flows, msg), flows', Weight);
    if i < 0 {
      var f := TouchFlow(msg)(FreshFlow(id, msg.timestamp));
      TotalSplits(flows, [f], Weight);
      assert [f][1..] == [] && Total([f], Weight) == 1;
    } else {
      TotalReplaced(flows, i, TouchFlow(msg)(flows[i]), Weight);
    }
  }

  lemma TracesStaySound(traces: seq<Trace>, msg: Message, payload: Payload, traces': seq<Trace>)
    requires DistinctIds(traces, TraceId) && (forall t :: t in traces ==> SoundTrace(t))
    requires Rearranged(traces', UpsertTrace(traces, msg, payload))
    ensures DistinctIds(traces', TraceId) && forall t :: t in traces' ==> SoundTrace(t)
  {
    var ys := UpsertTrace(traces, msg, payload);
    if ys != traces {
      var p := payload.trace.value;
      var initial := Trace(p.traceId, 0, [], [], "", msg.timestamp, "", 0);
      UpsertOnTable(traces, TraceId, p.traceId, initial, TouchTrace(msg, p));
      UpsertMembers(traces, TraceId, p.traceId, initial, TouchTrace(msg, p));
      forall t | t in ys ensures SoundTrace(t) {
        if t !in traces {
          var before :=
            if t == TouchTrace(msg, p)(initial) then initial
            else var x :| x in traces && t == TouchTrace(msg, p)(x); x;
          EmptyIsClean();
          TouchedTraceIsSound(before, msg, p);
        }
      }
    }
    Reordered(ys, traces', TraceId);
    SameMembers(ys, traces');
  }

  lemma TasksStaySound(tasks: seq<Task>, msg: Message, payload: Payload, tasks': seq<Task>)
    requires DistinctIds(tasks, TaskId) && Rearranged(tasks', UpsertTask(tasks, msg, payload))
    ensures DistinctIds(tasks', TaskId)
  {
    var ys := UpsertTask(tasks, msg, payload);
    if !Blank(msg.taskId) {
      UpsertOnTable(tasks, TaskId, msg.taskId, Task(msg.taskId, "", "", "", "", "", "", "", msg.timestamp, ""),
                    TouchTask(msg, payload));
    }
    Reordered(ys, tasks', TaskId);
  }

  /** The retained messages are a sorted choice of the old ones and the new one. */
  lemma RetainedMessages(limit: int, messages: seq<Message>, msg: Message, kept: seq<Message>)
    requires DistinctIds(messages, MessageId) && msg.id !in Ids(messages, MessageId)
    requires Retained(limit, messages + [msg], kept)
    ensures DistinctIds(kept, MessageId) && InOrder(kept, Newer)
    ensures |kept| == if limit > 0 && |messages| + 1 > limit then limit else |messages| + 1
    ensures forall m :: m in kept ==> m in messages + [msg]
    ensures forall m, m' :: m in messages + [msg] && m !in kept && m' in kept ==> !Newer(m, m')
    ensures !(limit > 0 && |messages| + 1 > limit) ==> forall m :: m in messages + [msg] ==> m in kept
  {
    var all := messages + [msg];
    forall j | 0 <= j < |messages| ensures MessageId(messages[j]) != msg.id {
      assert messages[j] in messages;
    }
    Appended(messages, msg, MessageId);
    var sorted :| Rearranged(sorted, all) && InOrder(sorted, Newer) && kept == Cut(limit, sorted);
    hide ById, Newer;
    Reordered(all, sorted, MessageId);
    SameMembers(all, sorted);
    CutDropsLater(limit, sorted, kept, Newer);
    hide InOrder;
  }

  lemma CutDropsLater<T>(limit: int, sorted: seq<T>, kept: seq<T>, before: (T, T) -> bool)
    requires InOrder(sorted, before) && kept == Cut(limit, sorted)
    ensures InOrder(kept, before)
    ensures forall m, m' :: m in sorted && m !in kept && m' in kept ==> !before(m, m')
  {
    forall m, m' | m in sorted && m !in kept && m' in kept ensures !before(m, m') {
      var i :| 0 <= i < |sorted| && sorted[i] == m;
      var j :| 0 <= j < |kept| && kept[j] == m';
      assert sorted[j] == m' && j < i;
    }
  }

  lemma AcceptKeepsSound(limit: int, doc: Snapshot, msg: Message, payload: Payload, doc': Snapshot)
    requires Sound(doc) && Balanced(doc) && AcceptStep(limit, doc, msg, payload, doc')
    ensures Sound(doc') && Balanced(doc')
  {
    if msg.id !in Ids(doc.messages, MessageId) {
      hide *;
      AcceptedParts(limit, doc, msg, payload, doc');
      SoundParts(doc);
      FlowsStaySound(doc.flows, msg, doc'.flows);
      TracesStaySound(doc.traces, msg, payload, doc'.traces);
      TasksStaySound(doc.tasks, msg, payload, doc'.tasks);
      RetainedMessages(limit, doc.messages, msg, doc'.messages);
      SoundFromParts(doc');
      FlowsCount(doc.flows, msg, doc'.flows);
      BalanceShifts(doc, doc');
    }
  }

  lemma AcceptedParts(limit: int, doc: Snapshot, msg: Message, payload: Payload, doc': Snapshot)
    requires AcceptStep(limit, doc, msg, payload, doc') && msg.id !in Ids(doc.messages, MessageId)
    ensures Rearranged(doc'.flows, UpsertFlow(doc.flows, msg))
    ensures Rearranged(doc'.traces, UpsertTrace(doc.traces, msg, payload))
    ensures Rearranged(doc'.tasks, UpsertTask(doc.tasks, msg, payload))
    ensures Retained(limit, doc.messages + [msg], doc'.messages)
    ensures doc'.health == doc.health.(accepted := doc.health.accepted + 1)
  {
    hide Ids, UpsertFlow, UpsertTrace, UpsertTask, Rearranged, Retained;
  }

  lemma SoundParts(doc: Snapshot)
    requires Sound(doc)
    ensures DistinctIds(doc.messages, MessageId) && DistinctIds(doc.flows, FlowId)
    ensures DistinctIds(doc.traces, TraceId) && DistinctIds(doc.tasks, TaskId)
    ensures forall f :: f in doc.flows ==> SoundFlow(f)
    ensures forall t :: t in doc.traces ==> SoundTrace(t)
  {
    hide DistinctIds, SoundFlow, SoundTrace;
  }

  lemma SoundFromParts(doc: Snapshot)
    requires DistinctIds(doc.messages, MessageId) && DistinctIds(doc.flows, FlowId)
    requires DistinctIds(doc.traces, TraceId) && DistinctIds(doc.tasks, TaskId)
    requires forall f :: f in doc.flows ==> SoundFlow(f)
    requires forall t :: t in doc.traces ==> SoundTrace(t)
    ensures Sound(doc)
  {
    hide DistinctIds, SoundFlow, SoundTrace;
  }

  lemma BalanceShifts(doc: Snapshot, doc': Snapshot)
    requires Balanced(doc) && doc'.health == doc.health.(accepted := doc.health.accepted + 1)
    requires Total(doc'.flows, Weight) == Total(doc.flows, Weight) + 1 && |doc'.messages| <= |doc.messages| + 1
    ensures Balanced(doc')
  {
    hide Total;
  }

  lemma {:induction false} ReadFlowsTotal(flows: seq<Flow>, lost: set<string>)
    ensures Total(ReadFlows(flows, lost), Weight) == Total(flows, Weight)
  {
    if flows != [] {
      ReadFlowsTotal(flows[1..], lost);
      assert ReadFlows(flows, lost)[1..] == ReadFlows(flows[1..], lost);
    }
  }

  lemma ReloadKeepsFlows(flows: seq<Flow>, lost: set<string>, flows': seq<Flow>)
    requires DistinctIds(flows, FlowId) && (forall f :: f in flows ==> SoundFlow(f))
    requires Rearranged(flows', ReadFlows(flows, lost))
    ensures DistinctIds(flows', FlowId) && (forall f :: f in flows' ==> SoundFlow(f))
    ensures Total(flows', Weight) == Total(flows, Weight)
  {
    var ys := ReadFlows(flows, lost);
    ReadFlowsTotal(flows, lost);
    TotalReordered(ys, flows', Weight);
    forall i | 0 <= i < |ys| ensures SoundFlow(ys[i]) && ys[i].id == flows[i].id {
      ReadFlowIsSound(flows[i], flows[i].id in lost);
    }
    hide SoundFlow, ReadFlow;
    Reordered(ys, flows', FlowId);
    SameMembers(ys, flows');
  }

  lemma ReloadKeepsTraces(traces: seq<Trace>, lost: set<string>, traces': seq<Trace>)
    requires DistinctIds(traces, TraceId) && (forall t :: t in traces ==> SoundTrace(t))
    requires Rearranged(traces', ReadTraces(traces, lost))
    ensures DistinctIds(traces', TraceId) && forall t :: t in traces' ==> SoundTrace(t)
  {
    var ys := ReadTraces(traces, lost);
    forall i | 0 <= i < |ys| ensures SoundTrace(ys[i]) && ys[i].id == traces[i].id {
      ReadTraceIsSound(traces[i], traces[i].id in lost);
    }
    hide SoundTrace, ReadTrace;
    Reordered(ys, traces', TraceId);
    SameMembers(ys, traces');
  }

  lemma ReloadKeepsSound(doc: Snapshot, lostFlows: set<string>, lostTraces: set<string>, doc': Snapshot)
    requires Sound(doc) && Balanced(doc) && ReloadStep(doc, lostFlows, lostTraces, doc')
    ensures Sound(doc') && Balanced(doc')
  {
    hide SoundFlow, SoundTrace, DistinctIds, ReadFlows, ReadTraces, Total, InOrder;
    ReloadKeepsFlows(doc.flows, lostFlows, doc'.flows);
    ReloadKeepsTraces(doc.traces, lostTraces, doc'.traces);
    Reordered(doc.tasks, doc'.tasks, TaskId);
    Reordered(doc.messages, doc'.messages, MessageId);
    SameMembers(doc.messages, doc'.messages);
  }

  lemma CommitKeepsSound(limit: int, s: State, e: Event, s': State)
    requires Sound(s.doc) && Balanced(s.doc) && Commits(limit, s, e, s')
    ensures Sound(s'.doc) && Balanced(s'.doc)
  {
    hide SoundFlow, SoundTrace, DistinctIds, AcceptStep, ReloadStep, Total;
    match e
    case Accept(msg, payload) => AcceptKeepsSound(limit, s.doc, msg, payload, s'.doc);
    case Reload(flows, traces) => ReloadKeepsSound(s.doc, flows, traces, s'.doc);
    case _ =>
  }

  lemma RunShape(limit: int, states: seq<State>, events: seq<Event>, committed: seq<bool>)
    requires IsRun(limit, states, events, committed)
    ensures |states| == |events| + 1 && |committed| == |events| && states[0] == START
  {
  }

  lemma RunStep(limit: int, states: seq<State>, events: seq<Event>, committed: seq<bool>, i: nat)
    requires IsRun(limit, states, events, committed) && i < |events|
    ensures |states| == |events| + 1 && |committed| == |events|
    ensures committed[i] ==> Commits(limit, states[i], events[i], states[i + 1])
    ensures !committed[i] ==> states[i + 1] == states[i]
  {
  }

  /** MAIN RESULT.  In every run, under every interleaving and whichever transactions fail, the
      snapshot is well-formed and the accounts balance: flow counts add up to the accepted
      count, the retained messages never exceed it, and the rejected count is both the sum over
      the reasons and the sum of mirrored and unmirrored rejects. */
  lemma {:induction false} AccountsBalance(
      limit: int, states: seq<State>, events: seq<Event>, committed: seq<bool>, i: nat)
    requires IsRun(limit, states, events, committed) && i < |states|
    ensures Sound(states[i].doc) && Balanced(states[i].doc)
  {
    if i > 0 {
      AccountsBalance(limit, states, events, committed, i - 1);
      hide Sound, Balanced, Commits, IsRun;
      RunStep(limit, states, events, committed, i - 1);
      if committed[i - 1] {
        CommitKeepsSound(limit, states[i - 1], events[i - 1], states[i]);
      }
    }
  }
}
