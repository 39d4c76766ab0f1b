/** Who and what takes part in a flow or a trace, over every run: which values the participant
    lists hold, although a re-read may lose lists. */
module Participants {
  import opened Ordering
  import opened Text
  import opened Lists
  import opened Records
  import opened Ingest
  import opened IngestRuns
  import opened Redelivery
  import opened Tally

  function Names(values: seq<string>): set<string> {
    set v | v in values
  }

  function NamesGiven(part: seq<Delivery>, give: Delivery -> string): set<string> {
    set d | d in part && TrimSpace(give(d)) != "" :: TrimSpace(give(d))
  }

  function TopicOf(d: Delivery): string { d.msg.topic }
  function SenderOf(d: Delivery): string { d.msg.sender }
  function TraceIdOf(d: Delivery): string { d.msg.traceId }
  function TaskIdOf(d: Delivery): string { d.msg.taskId }
  function SpanTypeOf(d: Delivery): string { SpanOf(d).spanType }

  /** The lists hold exactly the values that these records gave, trimmed. */
  ghost predicate FlowNames(f: Flow, part: seq<Delivery>) {
    && Names(f.topics) == NamesGiven(part, TopicOf) && Names(f.senders) == NamesGiven(part, SenderOf)
    && Names(f.traceIds) == NamesGiven(part, TraceIdOf) && Names(f.taskIds) == NamesGiven(part, TaskIdOf)
  }

  ghost predicate TraceNames(t: Trace, part: seq<Delivery>) {
    Names(t.agents) == NamesGiven(part, SenderOf) && Names(t.spanTypes) == NamesGiven(part, SpanTypeOf)
  }

  /** The same of the records from the `k`-th on. */
  ghost predicate FlowNamesFrom(f: Flow, part: seq<Delivery>, k: nat) {
    k <= |part| && FlowNames(f, part[k..])
  }

  ghost predicate TraceNamesFrom(t: Trace, part: seq<Delivery>, k: nat) {
    k <= |part| && TraceNames(t, part[k..])
  }

  // ---------- one record ----------

  lemma OneNameMore(values: seq<string>, part: seq<Delivery>, give: Delivery -> string, d: Delivery)
    requires Names(values) == NamesGiven(part, give)
    ensures Names(AppendUnique(values, give(d))) == NamesGiven(part + [d], give)
  {
    hide TrimSpace;
    var v := TrimSpace(give(d));
    assert NamesGiven(part + [d], give) == NamesGiven(part, give) + if v == "" then {} else {v};
  }

  lemma NoNames(give: Delivery -> string)
    ensures NamesGiven([], give) == {} == Names([])
  {
  }

  lemma TouchNames(f: Flow, part: seq<Delivery>, d: Delivery)
    requires FlowNames(f, part)
    ensures FlowNames(TouchFlow(d.msg)(f), part + [d])
  {
    hide Names, NamesGiven, AppendUnique, FirstNonEmpty;
    OneNameMore(f.topics, part, TopicOf, d);
    OneNameMore(f.senders, part, SenderOf, d);
    OneNameMore(f.traceIds, part, TraceIdOf, d);
    OneNameMore(f.taskIds, part, TaskIdOf, d);
  }

  lemma SpanNames(t: Trace, part: seq<Delivery>, d: Delivery)
    requires TraceNames(t, part) && IsSpan(d)
    ensures TraceNames(TouchTrace(d.msg, d.payload.trace.value)(t), part + [d])
  {
    hide Names, NamesGiven, AppendUnique, FirstNonEmpty, Blank;
    OneNameMore(t.agents, part, SenderOf, d);
    OneNameMore(t.spanTypes, part, SpanTypeOf, d);
  }

  lemma TouchNamesOn(f: Flow, part: seq<Delivery>, d: Delivery, k: nat)
    requires FlowNamesFrom(f, part, k)
    ensures FlowNamesFrom(TouchFlow(d.msg)(f), part + [d], k)
  {
    hide FlowNames, TouchFlow;
    TouchNames(f, part[k..], d);
    assert (part + [d])[k..] == part[k..] + [d];
  }

  lemma SpanNamesOn(t: Trace, part: seq<Delivery>, d: Delivery, k: nat)
    requires TraceNamesFrom(t, part, k) && IsSpan(d)
    ensures TraceNamesFrom(TouchTrace(d.msg, d.payload.trace.value)(t), part + [d], k)
  {
    hide TraceNames, TouchTrace, Blank;
    SpanNames(t, part[k..], d);
    assert (part + [d])[k..] == part[k..] + [d];
  }

  /** What is in an upserted list: the others, and the touched element under the key. */
  lemma UpsertedMember<T(!new)>(xs: seq<T>, id: T -> string, key: string, initial: T, touch: T -> T, y: T)
    returns (x: T)
    requires DistinctIds(xs, id) && id(initial) == key && (forall x :: id(touch(x)) == id(x))
    requires y in Upsert(xs, id, key, initial, touch)
    ensures (id(y) != key && x == y && y in xs)
         || (id(y) == key && y == touch(x) && id(x) == key && (x in xs || (x == initial && key !in Ids(xs, id))))
  {
    var i := IndexOf(xs, id, key);
    if i < 0 {
      x := if y in xs then y else initial;
    } else {
      var j :| 0 <= j < |xs| && xs[i := touch(xs[i])][j] == y;
      x := xs[j];
    }
  }

  // ---------- one step ----------

  /** Each flow's lists hold what its records gave from the one at `from` on. */
  ghost predicate FlowLists(flows: seq<Flow>, ds: seq<Delivery>, from: string -> nat) {
    && (forall id :: from(id) <= |FlowPart(ds, id)|)
    && (forall f :: f in flows ==> FlowNamesFrom(f, FlowPart(ds, f.id), from(f.id)))
  }

  ghost predicate TraceLists(traces: seq<Trace>, ds: seq<Delivery>, from: string -> nat) {
    && (forall id :: from(id) <= |TracePart(ds, id)|)
    && (forall t :: t in traces ==> TraceNamesFrom(t, TracePart(ds, t.id), from(t.id)))
  }

  lemma FlowPartMore(ds: seq<Delivery>, d: Delivery, id: string)
    ensures FlowPart(ds + [d], id) ==
            if FallbackId(d.msg.correlation, d.msg.id) == id then FlowPart(ds, id) + [d] else FlowPart(ds, id)
  {
    hide FallbackId;
    assert (ds + [d])[..|ds|] == ds;
    assert FlowPart(ds, id) + [] == FlowPart(ds, id);
  }

  lemma TracePartMore(ds: seq<Delivery>, d: Delivery, id: string)
    ensures TracePart(ds + [d], id) ==
            if IsSpan(d) && d.payload.trace.value.traceId == id then TracePart(ds, id) + [d] else TracePart(ds, id)
  {
    hide Blank;
    assert (ds + [d])[..|ds|] == ds;
    assert TracePart(ds, id) + [] == TracePart(ds, id);
  }

  lemma FreshFlowNames(id: string, timestamp: string)
    ensures FlowNamesFrom(FreshFlow(id, timestamp), [], 0)
  {
    var part: seq<Delivery> := [];
    assert part[0..] == [];
  }

  lemma FreshTraceNames(t: Trace)
    requires t.agents == [] && t.spanTypes == []
    ensures TraceNamesFrom(t, [], 0)
  {
    var part: seq<Delivery> := [];
    assert part[0..] == [];
  }

  lemma AcceptFlowLists(flows: seq<Flow>, ds: seq<Delivery>, d: Delivery, flows': seq<Flow>, from: string -> nat)
    requires DistinctIds(flows, FlowId) && FlowLists(flows, ds, from)
    requires forall id :: FlowPart(ds, id) != [] ==> id in Ids(flows, FlowId)
    requires Rearranged(flows', UpsertFlow(flows, d.msg))
    ensures FlowLists(flows', ds + [d], from)
  {
    SameMembers(flows', UpsertFlow(flows, d.msg));
    hide FlowNamesFrom, TouchFlow, FallbackId, Upsert, Ids, FlowPart, DistinctIds;
    var key := FallbackId(d.msg.correlation, d.msg.id);
    var initial := FreshFlow(key, d.msg.timestamp);
    TouchKeepsId(d.msg);
    forall f | f in flows' ensures FlowNamesFrom(f, FlowPart(ds + [d], f.id), from(f.id)) {
      var x := UpsertedMember(flows, FlowId, key, initial, TouchFlow(d.msg), f);
      FlowTouched(x, ds, d, f, from(f.id), x in flows);
    }
    FlowsReach(ds, d, from);
  }

  lemma FlowTouched(x: Flow, ds: seq<Delivery>, d: Delivery, f: Flow, k: nat, known: bool)
    requires var key := FallbackId(d.msg.correlation, d.msg.id);
             if f.id == key then x.id == key && f == TouchFlow(d.msg)(x) else known && x == f
    requires if known then FlowNamesFrom(x, FlowPart(ds, x.id), k)
             else x == FreshFlow(x.id, d.msg.timestamp) && FlowPart(ds, x.id) == [] && k == 0
    ensures FlowNamesFrom(f, FlowPart(ds + [d], f.id), k)
  {
    hide FlowNamesFrom, TouchFlow, FallbackId, FlowPart;
    FlowPartMore(ds, d, f.id);
    FreshFlowNames(x.id, d.msg.timestamp);
    if f.id == FallbackId(d.msg.correlation, d.msg.id) {
      TouchNamesOn(x, FlowPart(ds, x.id), d, k);
    }
  }

  lemma FlowsReach(ds: seq<Delivery>, d: Delivery, from: string -> nat)
    requires forall id :: from(id) <= |FlowPart(ds, id)|
    ensures forall id :: from(id) <= |FlowPart(ds + [d], id)|
  {
    hide FlowPart, FallbackId;
    forall id ensures from(id) <= |FlowPart(ds + [d], id)| {
      FlowPartMore(ds, d, id);
    }
  }

  lemma TouchKeepsId(msg: Message)
    ensures forall f :: FlowId(TouchFlow(msg)(f)) == FlowId(f)
    ensures forall p, t :: TraceId(TouchTrace(msg, p)(t)) == TraceId(t)
  {
    hide AppendUnique, FirstNonEmpty;
  }

  lemma AcceptTraceLists(
      traces: seq<Trace>, ds: seq<Delivery>, d: Delivery, traces': seq<Trace>, from: string -> nat)
    requires DistinctIds(traces, TraceId) && TraceLists(traces, ds, from)
    requires forall id :: TracePart(ds, id) != [] ==> id in Ids(traces, TraceId)
    requires Rearranged(traces', UpsertTrace(traces, d.msg, d.payload))
    ensures TraceLists(traces', ds + [d], from)
  {
    SameMembers(traces', UpsertTrace(traces, d.msg, d.payload));
    hide TraceNamesFrom, TouchTrace, Upsert, Ids, TracePart, DistinctIds, Blank;
    TouchKeepsId(d.msg);
    forall t | t in traces' ensures TraceNamesFrom(t, TracePart(ds + [d], t.id), from(t.id)) {
      if IsSpan(d) {
        var p := d.payload.trace.value;
        var initial := Trace(p.traceId, 0, [], [], "", d.msg.timestamp, "", 0);
        var x := UpsertedMember(traces, TraceId, p.traceId, initial, TouchTrace(d.msg, p), t);
        TraceTouched(x, ds, d, t, from(t.id), x in traces);
      } else {
        TracePartMore(ds, d, t.id);
      }
    }
    TracesReach(ds, d, from);
  }

  lemma TraceTouched(x: Trace, ds: seq<Delivery>, d: Delivery, t: Trace, k: nat, known: bool)
    requires IsSpan(d)
    requires var p := d.payload.trace.value;
             if t.id == p.traceId then x.id == t.id && t == TouchTrace(d.msg, p)(x) else known && x == t
    requires if known then TraceNamesFrom(x, TracePart(ds, x.id), k)
             else x.agents == [] && x.spanTypes == [] && TracePart(ds, x.id) == [] && k == 0
    ensures TraceNamesFrom(t, TracePart(ds + [d], t.id), k)
  {
    hide TraceNamesFrom, TouchTrace, Blank, TracePart;
    TracePartMore(ds, d, t.id);
    if !known {
      FreshTraceNames(x);
    }
    if t.id == d.payload.trace.value.traceId {
      SpanNamesOn(x, TracePart(ds, x.id), d, k);
    }
  }

  lemma TracesReach(ds: seq<Delivery>, d: Delivery, from: string -> nat)
    requires forall id :: from(id) <= |TracePart(ds, id)|
    ensures forall id :: from(id) <= |TracePart(ds + [d], id)|
  {
    hide TracePart, Blank;
    forall id ensures from(id) <= |TracePart(ds + [d], id)| {
      TracePartMore(ds, d, id);
    }
  }

  lemma ReadFlowNames(f: Flow, lost: bool, part: seq<Delivery>, k: nat)
    requires SoundFlow(f) && FlowNamesFrom(f, part, k)
    ensures FlowNamesFrom(ReadFlow(f, lost), part, if lost then |part| else k)
  {
    hide NamesGiven;
    if lost {
      NoNames(TopicOf);
      NoNames(SenderOf);
      NoNames(TraceIdOf);
      NoNames(TaskIdOf);
      assert part[|part|..] == [];
    } else {
      StringsSorted(f.topics);
      StringsSorted(f.senders);
      StringsSorted(f.traceIds);
      StringsSorted(f.taskIds);
      hide SortStrings;
    }
  }

  lemma ReadTraceNames(t: Trace, lost: bool, part: seq<Delivery>, k: nat)
    requires SoundTrace(t) && TraceNamesFrom(t, part, k)
    ensures TraceNamesFrom(ReadTrace(t, lost), part, if lost then |part| else k)
  {
    hide NamesGiven;
    if lost {
      NoNames(SenderOf);
      NoNames(SpanTypeOf);
      assert part[|part|..] == [];
    } else {
      StringsSorted(t.agents);
      StringsSorted(t.spanTypes);
      hide SortStrings;
    }
  }

  lemma ReloadFlowLists(
      flows: seq<Flow>, lost: set<string>, flows': seq<Flow>, ds: seq<Delivery>, from: string -> nat,
      from': string -> nat)
    requires FlowLists(flows, ds, from) && forall f :: f in flows ==> SoundFlow(f)
    requires Rearranged(flows', ReadFlows(flows, lost))
    requires forall id :: from'(id) == if id in lost then |FlowPart(ds, id)| else from(id)
    ensures FlowLists(flows', ds, from')
  {
    SameMembers(flows', ReadFlows(flows, lost));
    hide FlowNamesFrom, ReadFlow, FlowPart, SoundFlow;
    forall f | f in flows' ensures FlowNamesFrom(f, FlowPart(ds, f.id), from'(f.id)) {
      var i :| 0 <= i < |flows| && f == ReadFlow(flows[i], flows[i].id in lost);
      ReadKeepsId(flows[i], flows[i].id in lost);
      ReadFlowNames(flows[i], flows[i].id in lost, FlowPart(ds, f.id), from(f.id));
    }
  }

  lemma ReloadTraceLists(
      traces: seq<Trace>, lost: set<string>, traces': seq<Trace>, ds: seq<Delivery>, from: string -> nat,
      from': string -> nat)
    requires TraceLists(traces, ds, from) && forall t :: t in traces ==> SoundTrace(t)
    requires Rearranged(traces', ReadTraces(traces, lost))
    requires forall id :: from'(id) == if id in lost then |TracePart(ds, id)| else from(id)
    ensures TraceLists(traces', ds, from')
  {
    SameMembers(traces', ReadTraces(traces, lost));
    hide TraceNamesFrom, ReadTrace, TracePart, SoundTrace;
    forall t | t in traces' ensures TraceNamesFrom(t, TracePart(ds, t.id), from'(t.id)) {
      var i :| 0 <= i < |traces| && t == ReadTrace(traces[i], traces[i].id in lost);
      ReadTraceKeepsId(traces[i], traces[i].id in lost);
      ReadTraceNames(traces[i], traces[i].id in lost, TracePart(ds, t.id), from(t.id));
    }
  }

  lemma ReadKeepsId(f: Flow, lost: bool)
    ensures ReadFlow(f, lost).id == f.id
  {
  }

  lemma ReadTraceKeepsId(t: Trace, lost: bool)
    ensures ReadTrace(t, lost).id == t.id
  {
  }

  // ---------- every run ----------

  /** How many records of a flow had counted when a re-read last lost its lists; 0 if none did. */
  ghost function FlowLostAt(states: seq<State>, events: seq<Event>, committed: seq<bool>, n: nat, id: string): nat
    requires n <= |events| && |committed| == |events| && |states| == |events| + 1
  {
    if n == 0 then 0
    else if committed[n - 1] && events[n - 1].Reload? && id in events[n - 1].lostFlows then
      |FlowPart(CountedRecords(states, events, committed, n - 1), id)|
    else FlowLostAt(states, events, committed, n - 1, id)
  }

  ghost function TraceLostAt(states: seq<State>, events: seq<Event>, committed: seq<bool>, n: nat, id: string): nat
    requires n <= |events| && |committed| == |events| && |states| == |events| + 1
  {
    if n == 0 then 0
    else if committed[n - 1] && events[n - 1].Reload? && id in events[n - 1].lostTraces then
      |TracePart(CountedRecords(states, events, committed, n - 1), id)|
    else TraceLostAt(states, events, committed, n - 1, id)
  }

  ghost predicate ListsHold(doc: Snapshot, ds: seq<Delivery>, flowsFrom: string -> nat, tracesFrom: string -> nat) {
    FlowLists(doc.flows, ds, flowsFrom) && TraceLists(doc.traces, ds, tracesFrom)
  }

  lemma StepKeepsLists(
      limit: int, s: State, e: Event, committed: bool, s': State, ds: seq<Delivery>,
      flowsFrom: string -> nat, tracesFrom: string -> nat, flowsFrom': string -> nat, tracesFrom': string -> nat)
    requires Sound(s.doc) && ListsHold(s.doc, ds, flowsFrom, tracesFrom)
    requires forall id :: FlowPart(ds, id) != [] ==> id in Ids(s.doc.flows, FlowId)
    requires forall id :: TracePart(ds, id) != [] ==> id in Ids(s.doc.traces, TraceId)
    requires if committed then Commits(limit, s, e, s') else s' == s
    requires forall id ::
               flowsFrom'(id) ==
               if committed && e.Reload? && id in e.lostFlows then |FlowPart(ds, id)| else flowsFrom(id)
    requires forall id ::
               tracesFrom'(id) ==
               if committed && e.Reload? && id in e.lostTraces then |TracePart(ds, id)| else tracesFrom(id)
    ensures ListsHold(s'.doc, ds + CountedBy(s, e, committed), flowsFrom', tracesFrom')
  {
    hide Sound, FlowNamesFrom, TraceNamesFrom, AcceptStep, Ids, FlowPart, TracePart, UpsertFlow, UpsertTrace,
         Rearranged, InOrder, ReadFlows, ReadTraces, SoundFlow, SoundTrace;
    assert ds + [] == ds;
    SoundParts(s.doc);
    if committed && e.Accept? && e.msg.id !in Ids(s.doc.messages, MessageId) {
      var d := Delivery(e.msg, e.payload);
      AcceptedParts(limit, s.doc, e.msg, e.payload, s'.doc);
      AcceptFlowLists(s.doc.flows, ds, d, s'.doc.flows, flowsFrom');
      AcceptTraceLists(s.doc.traces, ds, d, s'.doc.traces, tracesFrom');
    } else if committed && e.Accept? {
      RepeatIsNoStep(limit, s, e, s');
    } else if committed && e.Reload? {
      ReloadFlowLists(s.doc.flows, e.lostFlows, s'.doc.flows, ds, flowsFrom, flowsFrom');
      ReloadTraceLists(s.doc.traces, e.lostTraces, s'.doc.traces, ds, tracesFrom, tracesFrom');
    }
  }

  lemma LostAtStep(states: seq<State>, events: seq<Event>, committed: seq<bool>, n: nat)
    requires n <= |events| && |committed| == |events| && |states| == |events| + 1
    ensures n == 0 ==> forall id ::
              FlowLostAt(states, events, committed, n, id) == 0 == TraceLostAt(states, events, committed, n, id)
    ensures n > 0 ==>
              var e, goes, ds := events[n - 1], committed[n - 1], CountedRecords(states, events, committed, n - 1);
              && (forall id :: FlowLostAt(states, events, committed, n, id) ==
                    if goes && e.Reload? && id in e.lostFlows then |FlowPart(ds, id)|
                    else FlowLostAt(states, events, committed, n - 1, id))
              && (forall id :: TraceLostAt(states, events, committed, n, id) ==
                    if goes && e.Reload? && id in e.lostTraces then |TracePart(ds, id)|
                    else TraceLostAt(states, events, committed, n - 1, id))
  {
    hide CountedRecords, FlowPart, TracePart;
  }

  /** MAIN RESULT.  In every run, under every interleaving and whichever transactions fail, the
      participant lists of each flow and trace hold exactly the trimmed values given by those of its
      records that counted since a re-read last lost its lists; by all of them if none did. */
  lemma {:induction false} ListsAddUp(limit: int, states: seq<State>, events: seq<Event>, committed: seq<bool>, n: nat)
    requires IsRun(limit, states, events, committed)
    requires n <= |events| && |committed| == |events| && |states| == |events| + 1
    ensures ListsHold(states[n].doc, CountedRecords(states, events, committed, n),
                      id => FlowLostAt(states, events, committed, n, id),
                      id => TraceLostAt(states, events, committed, n, id))
  {
    hide *;
    RunShape(limit, states, events, committed);
    CountedStep(states, events, committed, n);
    LostAtStep(states, events, committed, n);
    var flowsFrom := id => FlowLostAt(states, events, committed, n, id);
    var tracesFrom := id => TraceLostAt(states, events, committed, n, id);
    if n == 0 {
      NoLists(flowsFrom, tracesFrom);
    } else {
      ListsAddUp(limit, states, events, committed, n - 1);
      AccountsBalance(limit, states, events, committed, n - 1);
      SnapshotIsTally(limit, states, events, committed, n - 1);
      RunStep(limit, states, events, committed, n - 1);
      StepKeepsLists(limit, states[n - 1], events[n - 1], committed[n - 1], states[n],
                     CountedRecords(states, events, committed, n - 1),
                     id => FlowLostAt(states, events, committed, n - 1, id),
                     id => TraceLostAt(states, events, committed, n - 1, id), flowsFrom, tracesFrom);
    }
  }

  /** MAIN RESULT.  In every run, under every interleaving and whichever transactions fail, every field of
      every flow, trace and task is what the records that counted for it say: counts, sightings and latest
      values by all of them, participant lists by those since a re-read last lost the lists. */
  lemma SnapshotInFull(limit: int, states: seq<State>, events: seq<Event>, committed: seq<bool>, n: nat)
    requires IsRun(limit, states, events, committed)
    requires n <= |events| && |committed| == |events| && |states| == |events| + 1
    ensures var doc, ds := states[n].doc, CountedRecords(states, events, committed, n);
            && (forall f :: f in doc.flows ==>
                  && FlowTallies(f, FlowPart(ds, f.id))
                  && FlowNamesFrom(f, FlowPart(ds, f.id), FlowLostAt(states, events, committed, n, f.id)))
            && (forall t :: t in doc.traces ==>
                  && TraceTallies(t, TracePart(ds, t.id))
                  && TraceNamesFrom(t, TracePart(ds, t.id), TraceLostAt(states, events, committed, n, t.id)))
            && (forall t :: t in doc.tasks ==> TaskTallies(t, TaskPart(ds, t.id)))
            && (forall id :: FlowPart(ds, id) != [] ==> id in Ids(doc.flows, FlowId))
            && (forall id :: TracePart(ds, id) != [] ==> id in Ids(doc.traces, TraceId))
            && (forall id :: TaskPart(ds, id) != [] ==> id in Ids(doc.tasks, TaskId))
  {
    SnapshotIsTally(limit, states, events, committed, n);
    ListsAddUp(limit, states, events, committed, n);
    hide IsRun, FlowTallies, TraceTallies, TaskTallies, FlowPart, TracePart, TaskPart, FlowNamesFrom, TraceNamesFrom,
         FlowLostAt, TraceLostAt, CountedRecords, Ids;
  }

  lemma NoLists(flowsFrom: string -> nat, tracesFrom: string -> nat)
    requires forall id :: flowsFrom(id) == 0 == tracesFrom(id)
    ensures ListsHold(START.doc, [], flowsFrom, tracesFrom)
  {
  }
}
