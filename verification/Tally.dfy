/** What flows, traces and tasks hold, in closed form: counts of the records that went into them,
    first and last sightings, and the latest values given, over every run. */
module Tally {
  import opened Text
  import opened Lists
  import opened Records
  import opened Ingest
  import opened IngestRuns
  import opened Redelivery

  // ---------- the records that counted ----------

  /** A committed step that found its record's id not retained. */
  ghost function CountedBy(s: State, e: Event, committed: bool): seq<Delivery> {
    if committed && e.Accept? && e.msg.id !in Ids(s.doc.messages, MessageId) then [Delivery(e.msg, e.payload)] else []
  }

  ghost function CountedRecords(states: seq<State>, events: seq<Event>, committed: seq<bool>, n: nat): seq<Delivery>
    requires n <= |events| && |committed| == |events| && |states| == |events| + 1
  {
    if n == 0 then []
    else CountedRecords(states, events, committed, n - 1) + CountedBy(states[n - 1], events[n - 1], committed[n - 1])
  }

  function FlowsOf(ds: seq<Delivery>): map<string, Flow> {
    if ds == [] then map[] else AfterFlow(FlowsOf(ds[..|ds| - 1]), ds[|ds| - 1].msg)
  }

  function TracesOf(ds: seq<Delivery>): map<string, Trace> {
    if ds == [] then map[] else AfterTrace(TracesOf(ds[..|ds| - 1]), ds[|ds| - 1].msg, ds[|ds| - 1].payload)
  }

  function TasksOf(ds: seq<Delivery>): map<string, Task> {
    if ds == [] then map[] else AfterTask(TasksOf(ds[..|ds| - 1]), ds[|ds| - 1].msg, ds[|ds| - 1].payload)
  }

  ghost predicate AddsUpTo(doc: Snapshot, ds: seq<Delivery>) {
    && Table(doc.flows, FlowId, CoreFlow) == FlowsOf(ds)
    && Table(doc.traces, TraceId, CoreTrace) == TracesOf(ds)
    && ById(doc.tasks, TaskId) == TasksOf(ds)
  }

  lemma OneMore(ds: seq<Delivery>, d: Delivery)
    ensures FlowsOf(ds + [d]) == AfterFlow(FlowsOf(ds), d.msg)
    ensures TracesOf(ds + [d]) == AfterTrace(TracesOf(ds), d.msg, d.payload)
    ensures TasksOf(ds + [d]) == AfterTask(TasksOf(ds), d.msg, d.payload)
  {
    hide AfterFlow, AfterTrace, AfterTask;
    assert (ds + [d])[..|ds|] == ds;
  }

  lemma AcceptAddsUp(limit: int, doc: Snapshot, ds: seq<Delivery>, msg: Message, payload: Payload, doc': Snapshot)
    requires Sound(doc) && AddsUpTo(doc, ds)
    requires AcceptStep(limit, doc, msg, payload, doc') && msg.id !in Ids(doc.messages, MessageId)
    ensures AddsUpTo(doc', ds + [Delivery(msg, payload)])
  {
    AcceptedParts(limit, doc, msg, payload, doc');
    SoundParts(doc);
    OneMore(ds, Delivery(msg, payload));
    hide Table, ById, FlowsOf, TracesOf, TasksOf, AfterFlow, AfterTrace, AfterTask, AcceptStep, Sound,
         UpsertFlow, UpsertTrace, UpsertTask, DistinctIds;
    FlowsRefine(doc.flows, msg, doc'.flows);
    TracesRefine(doc.traces, msg, payload, doc'.traces);
    TasksRefine(doc.tasks, msg, payload, doc'.tasks);
  }

  lemma SameView(doc: Snapshot, doc': Snapshot, ds: seq<Delivery>)
    requires ViewOf(doc') == ViewOf(doc) && AddsUpTo(doc, ds)
    ensures AddsUpTo(doc', ds)
  {
    hide Table, ById;
  }

  lemma StepAddsUp(limit: int, s: State, e: Event, committed: bool, s': State, ds: seq<Delivery>)
    requires Sound(s.doc) && AddsUpTo(s.doc, ds)
    requires if committed then Commits(limit, s, e, s') else s' == s
    ensures AddsUpTo(s'.doc, ds + CountedBy(s, e, committed))
  {
    hide Sound, AddsUpTo, AcceptStep, ViewOf, ReloadStep;
    assert ds + [] == ds;
    if committed && e.Accept? && e.msg.id !in Ids(s.doc.messages, MessageId) {
      AcceptAddsUp(limit, s.doc, ds, e.msg, e.payload, s'.doc);
    } else if committed && e.Accept? {
      RepeatIsNoStep(limit, s, e, s');
    } else if committed {
      OtherRefines(limit, s, e, s');
      SameView(s.doc, s'.doc, ds);
    }
  }

  lemma RepeatIsNoStep(limit: int, s: State, e: Event, s': State)
    requires e.Accept? && e.msg.id in Ids(s.doc.messages, MessageId) && Commits(limit, s, e, s')
    ensures s'.doc == s.doc
  {
  }

  lemma {:induction false} TablesAddUp(limit: int, states: seq<State>, events: seq<Event>, committed: seq<bool>, n: nat)
    requires IsRun(limit, states, events, committed)
    requires n <= |events| && |committed| == |events| && |states| == |events| + 1
    ensures AddsUpTo(states[n].doc, CountedRecords(states, events, committed, n))
  {
    hide *;
    RunShape(limit, states, events, committed);
    CountedStep(states, events, committed, n);
    if n == 0 {
      NothingAddsUp();
    } else {
      TablesAddUp(limit, states, events, committed, n - 1);
      AccountsBalance(limit, states, events, committed, n - 1);
      RunStep(limit, states, events, committed, n - 1);
      StepAddsUp(limit, states[n - 1], events[n - 1], committed[n - 1], states[n],
                 CountedRecords(states, events, committed, n - 1));
    }
  }

  lemma CountedStep(states: seq<State>, events: seq<Event>, committed: seq<bool>, n: nat)
    requires n <= |events| && |committed| == |events| && |states| == |events| + 1
    ensures n == 0 ==> CountedRecords(states, events, committed, n) == []
    ensures n > 0 ==>
              CountedRecords(states, events, committed, n) ==
              CountedRecords(states, events, committed, n - 1)
              + CountedBy(states[n - 1], events[n - 1], committed[n - 1])
  {
    hide CountedBy;
  }

  lemma NothingAddsUp()
    ensures AddsUpTo(START.doc, [])
  {
  }

  // ---------- latest values ----------

  /** The last value that is not blank, or the empty string. */
  ghost predicate IsLatest(values: seq<string>, latest: string) {
    || (latest == "" && forall v :: v in values ==> Blank(v))
    || (!Blank(latest) && exists k :: 0 <= k < |values| && values[k] == latest && AllBlank(values[k + 1..]))
  }

  ghost predicate AllBlank(values: seq<string>) {
    forall v :: v in values ==> Blank(v)
  }

  lemma NothingBlank()
    ensures Blank("")
  {
  }

  lemma LatestIsNew(values: seq<string>, next: string)
    requires !Blank(next)
    ensures IsLatest(values + [next], next)
  {
    hide Blank;
    var all := values + [next];
    assert all[|values|] == next && all[|values| + 1..] == [];
  }

  lemma LatestIsOld(values: seq<string>, next: string, latest: string)
    requires Blank(next) && IsLatest(values, latest)
    ensures IsLatest(values + [next], latest)
  {
    NothingBlank();
    hide Blank;
    if !Blank(latest) {
      var all := values + [next];
      var k :| 0 <= k < |values| && values[k] == latest && AllBlank(values[k + 1..]);
      assert all[k] == latest && all[k + 1..] == values[k + 1..] + [next];
    }
  }

  lemma LatestOneMore(values: seq<string>, next: string, latest: string)
    requires IsLatest(values, latest)
    ensures IsLatest(values + [next], FirstNonEmpty(next, latest))
  {
    if Blank(next) {
      LatestStays(values, latest);
      LatestIsOld(values, next, latest);
    } else {
      LatestIsNew(values, next);
    }
    hide IsLatest, Blank;
  }

  lemma LatestStays(values: seq<string>, latest: string)
    requires IsLatest(values, latest)
    ensures FirstNonEmpty("", latest) == latest
  {
    NothingBlank();
  }

  /** The last value that was given, or the default. */
  ghost predicate IsLastGiven<T>(values: seq<T>, given: T -> bool, default: T, last: T) {
    || (last == default && forall v :: v in values ==> !given(v))
    || (given(last) && exists k :: 0 <= k < |values| && values[k] == last && NoneGiven(values[k + 1..], given))
  }

  ghost predicate NoneGiven<T>(values: seq<T>, given: T -> bool) {
    forall v :: v in values ==> !given(v)
  }

  lemma LastGivenOneMore<T>(values: seq<T>, given: T -> bool, default: T, next: T, last: T)
    requires IsLastGiven(values, given, default, last)
    ensures IsLastGiven(values + [next], given, default, if given(next) then next else last)
  {
    var all := values + [next];
    if given(next) {
      assert all[|values|] == next && all[|values| + 1..] == [];
    } else if given(last) {
      if k :| 0 <= k < |values| && values[k] == last && NoneGiven(values[k + 1..], given) {
        assert all[k] == last && all[k + 1..] == values[k + 1..] + [next];
      }
    }
  }

  function Column<T, U>(ds: seq<T>, f: T -> U): seq<U> {
    seq(|ds|, i requires 0 <= i < |ds| => f(ds[i]))
  }

  lemma ColumnOneMore<T, U>(ds: seq<T>, d: T, f: T -> U)
    ensures Column(ds + [d], f) == Column(ds, f) + [f(d)]
  {
  }

  lemma ColumnLatest<T>(ds: seq<T>, d: T, f: T -> string, latest: string)
    requires IsLatest(Column(ds, f), latest)
    ensures IsLatest(Column(ds + [d], f), FirstNonEmpty(f(d), latest))
  {
    ColumnOneMore(ds, d, f);
    LatestOneMore(Column(ds, f), f(d), latest);
  }

  lemma FirstLatest<T>(d: T, f: T -> string)
    ensures IsLatest(Column([d], f), FirstNonEmpty(f(d), ""))
  {
    ColumnLatest([], d, f, "");
    assert [] + [d] == [d];
  }

  // ---------- flows ----------

  /** The records of one flow, in order. */
  function FlowPart(ds: seq<Delivery>, id: string): seq<Delivery> {
    if ds == [] then []
    else
      var d := ds[|ds| - 1];
      FlowPart(ds[..|ds| - 1], id) + if FallbackId(d.msg.correlation, d.msg.id) == id then [d] else []
  }

  function StatusOf(d: Delivery): string { d.msg.status }
  function PreviewOf(d: Delivery): string { d.msg.preview }

  ghost predicate FlowTallies(f: Flow, part: seq<Delivery>) {
    && part != [] && f.messageCount == |part|
    && f.firstSeen == part[0].msg.timestamp && f.lastSeen == part[|part| - 1].msg.timestamp
    && IsLatest(Column(part, StatusOf), f.latestStatus) && IsLatest(Column(part, PreviewOf), f.latestPreview)
  }

  lemma TouchTallies(f: Flow, part: seq<Delivery>, d: Delivery)
    requires FlowTallies(f, part)
    ensures FlowTallies(CoreFlow(TouchFlow(d.msg)(f)), part + [d])
  {
    hide IsLatest, FirstNonEmpty, AppendUnique;
    ColumnLatest(part, d, StatusOf, f.latestStatus);
    ColumnLatest(part, d, PreviewOf, f.latestPreview);
    hide Column;
  }

  lemma FreshTallies(id: string, d: Delivery)
    ensures FlowTallies(CoreFlow(TouchFlow(d.msg)(FreshFlow(id, d.msg.timestamp))), [d])
  {
    hide IsLatest, FirstNonEmpty, AppendUnique;
    FirstLatest(d, StatusOf);
    FirstLatest(d, PreviewOf);
    hide Column;
  }

  lemma {:induction false} FlowsTally(ds: seq<Delivery>, id: string)
    ensures id in FlowsOf(ds) <==> FlowPart(ds, id) != []
    ensures id in FlowsOf(ds) ==> FlowTallies(FlowsOf(ds)[id], FlowPart(ds, id))
    decreases |ds|
  {
    hide FlowTallies, TouchFlow, CoreFlow, FallbackId;
    if ds != [] {
      var front, d := ds[..|ds| - 1], ds[|ds| - 1];
      FlowsTally(front, id);
      if FallbackId(d.msg.correlation, d.msg.id) == id {
        if id in FlowsOf(front) {
          TouchTallies(FlowsOf(front)[id], FlowPart(front, id), d);
        } else {
          assert FlowPart(front, id) + [d] == [d];
          FreshTallies(id, d);
        }
      } else {
        assert FlowPart(front, id) + [] == FlowPart(front, id);
      }
    }
  }

  // ---------- traces ----------

  predicate IsSpan(d: Delivery) {
    !Blank(d.msg.traceId) && d.payload.trace.Some? && !Blank(d.payload.trace.value.traceId)
  }

  function TracePart(ds: seq<Delivery>, id: string): seq<Delivery> {
    if ds == [] then []
    else
      var d := ds[|ds| - 1];
      TracePart(ds[..|ds| - 1], id) + if IsSpan(d) && d.payload.trace.value.traceId == id then [d] else []
  }

  function SpanOf(d: Delivery): TracePayload {
    if d.payload.trace.Some? then d.payload.trace.value else TracePayload("", "", "", "", "", "", 0)
  }

  function TitleOf(d: Delivery): string { SpanOf(d).title }
  function StartOf(d: Delivery): string { SpanOf(d).startedAt }
  function EndOf(d: Delivery): string { SpanOf(d).endedAt }
  function DurationOf(d: Delivery): int { SpanOf(d).durationMs }
  predicate Filled(s: string) { s != "" }
  predicate Positive(n: int) { n > 0 }

  ghost predicate TraceTallies(t: Trace, part: seq<Delivery>) {
    && part != [] && t.spanCount == |part|
    && IsLatest(Column(part, TitleOf), t.latestTitle)
    && IsLastGiven(Column(part, StartOf), Filled, part[0].msg.timestamp, t.startedAt)
    && IsLastGiven(Column(part, EndOf), Filled, "", t.endedAt)
    && IsLastGiven(Column(part, DurationOf), Positive, 0, t.durationMs)
  }

  lemma ColumnGiven<T, U>(ds: seq<T>, d: T, f: T -> U, given: U -> bool, default: U, last: U)
    requires IsLastGiven(Column(ds, f), given, default, last)
    ensures IsLastGiven(Column(ds + [d], f), given, default, if given(f(d)) then f(d) else last)
  {
    ColumnOneMore(ds, d, f);
    LastGivenOneMore(Column(ds, f), given, default, f(d), last);
  }

  lemma SpanTallies(t: Trace, part: seq<Delivery>, d: Delivery)
    requires TraceTallies(t, part) && IsSpan(d)
    ensures TraceTallies(CoreTrace(TouchTrace(d.msg, d.payload.trace.value)(t)), part + [d])
  {
    hide IsLatest, IsLastGiven, FirstNonEmpty, AppendUnique, Column, Blank;
    ColumnLatest(part, d, TitleOf, t.latestTitle);
    ColumnGiven(part, d, StartOf, Filled, part[0].msg.timestamp, t.startedAt);
    ColumnGiven(part, d, EndOf, Filled, "", t.endedAt);
    ColumnGiven(part, d, DurationOf, Positive, 0, t.durationMs);
  }

  lemma FirstGiven<U>(d: Delivery, f: Delivery -> U, given: U -> bool, default: U)
    ensures IsLastGiven(Column([d], f), given, default, if given(f(d)) then f(d) else default)
  {
    ColumnGiven([], d, f, given, default, default);
    assert [] + [d] == [d];
  }

  lemma FirstSpanTallies(d: Delivery)
    requires IsSpan(d)
    ensures var p := d.payload.trace.value;
            TraceTallies(CoreTrace(TouchTrace(d.msg, p)(Trace(p.traceId, 0, [], [], "", d.msg.timestamp, "", 0))), [d])
  {
    hide IsLatest, IsLastGiven, FirstNonEmpty, AppendUnique, Column, Blank;
    FirstLatest(d, TitleOf);
    FirstGiven(d, StartOf, Filled, d.msg.timestamp);
    FirstGiven(d, EndOf, Filled, "");
    FirstGiven(d, DurationOf, Positive, 0);
  }

  lemma {:induction false} TracesTally(ds: seq<Delivery>, id: string)
    ensures id in TracesOf(ds) <==> TracePart(ds, id) != []
    ensures id in TracesOf(ds) ==> TraceTallies(TracesOf(ds)[id], TracePart(ds, id))
    decreases |ds|
  {
    hide TraceTallies, TouchTrace, CoreTrace, Blank;
    if ds != [] {
      var front, d := ds[..|ds| - 1], ds[|ds| - 1];
      TracesTally(front, id);
      if IsSpan(d) && d.payload.trace.value.traceId == id {
        if id in TracesOf(front) {
          SpanTallies(TracesOf(front)[id], TracePart(front, id), d);
        } else {
          assert TracePart(front, id) + [d] == [d];
          FirstSpanTallies(d);
        }
      } else {
        assert TracePart(front, id) + [] == TracePart(front, id);
      }
    }
  }

  // ---------- tasks ----------

  function TaskPart(ds: seq<Delivery>, id: string): seq<Delivery> {
    if ds == [] then []
    else
      var d := ds[|ds| - 1];
      TaskPart(ds[..|ds| - 1], id) + if !Blank(d.msg.taskId) && d.msg.taskId == id then [d] else []
  }

  predicate IsRequest(d: Delivery) { d.msg.family == "requests" && d.payload.request.Some? }
  predicate IsResponse(d: Delivery) { d.msg.family == "responses" && d.payload.response.Some? }
  predicate IsStatus(d: Delivery) { d.msg.family == "tasks.status" && d.payload.status.Some? }

  function ParentOf(d: Delivery): string { if IsRequest(d) then d.payload.request.value.parentTaskId else "" }
  function RequesterOf(d: Delivery): string { if IsRequest(d) then d.payload.request.value.requesterId else "" }
  function OriginOf(d: Delivery): string { if IsRequest(d) then d.payload.request.value.originalRequesterId else "" }
  function DescriptionOf(d: Delivery): string { if IsRequest(d) then d.payload.request.value.description else "" }

  function ResponderOf(d: Delivery): string {
    if IsResponse(d) then d.payload.response.value.responderId
    else if IsStatus(d) then d.payload.status.value.responderId else ""
  }

  function TaskStatusOf(d: Delivery): string {
    if IsResponse(d) then d.payload.response.value.status
    else if IsStatus(d) then d.payload.status.value.status else ""
  }

  function SummaryOf(d: Delivery): string {
    if IsResponse(d) then d.payload.response.value.content
    else if IsStatus(d) then d.payload.status.value.summary else ""
  }

  ghost predicate RequestTallies(t: Task, part: seq<Delivery>) {
    && IsLatest(Column(part, ParentOf), t.parentTaskId) && IsLatest(Column(part, RequesterOf), t.requesterId)
    && IsLatest(Column(part, OriginOf), t.originalRequesterId) && IsLatest(Column(part, DescriptionOf), t.description)
  }

  ghost predicate OutcomeTallies(t: Task, part: seq<Delivery>) {
    && IsLatest(Column(part, ResponderOf), t.responderId) && IsLatest(Column(part, TaskStatusOf), t.status)
    && IsLatest(Column(part, SummaryOf), t.lastSummary)
  }

  ghost predicate TaskTallies(t: Task, part: seq<Delivery>) {
    && part != [] && t.firstSeen == part[0].msg.timestamp && t.lastSeen == part[|part| - 1].msg.timestamp
    && RequestTallies(t, part) && OutcomeTallies(t, part)
  }

  lemma RequestGoesOn(t: Task, part: seq<Delivery>, d: Delivery)
    requires RequestTallies(t, part)
    ensures RequestTallies(TouchTask(d.msg, d.payload)(t), part + [d])
  {
    LatestStays(Column(part, ParentOf), t.parentTaskId);
    LatestStays(Column(part, RequesterOf), t.requesterId);
    LatestStays(Column(part, OriginOf), t.originalRequesterId);
    LatestStays(Column(part, DescriptionOf), t.description);
    hide IsLatest, FirstNonEmpty, Column;
    ColumnLatest(part, d, ParentOf, t.parentTaskId);
    ColumnLatest(part, d, RequesterOf, t.requesterId);
    ColumnLatest(part, d, OriginOf, t.originalRequesterId);
    ColumnLatest(part, d, DescriptionOf, t.description);
  }

  lemma OutcomeGoesOn(t: Task, part: seq<Delivery>, d: Delivery)
    requires OutcomeTallies(t, part)
    ensures OutcomeTallies(TouchTask(d.msg, d.payload)(t), part + [d])
  {
    LatestStays(Column(part, ResponderOf), t.responderId);
    LatestStays(Column(part, TaskStatusOf), t.status);
    LatestStays(Column(part, SummaryOf), t.lastSummary);
    hide IsLatest, FirstNonEmpty, Column;
    ColumnLatest(part, d, ResponderOf, t.responderId);
    ColumnLatest(part, d, TaskStatusOf, t.status);
    ColumnLatest(part, d, SummaryOf, t.lastSummary);
  }

  lemma NothingTallies(t: Task)
    requires t.parentTaskId == "" && t.requesterId == "" && t.originalRequesterId == "" && t.description == ""
    requires t.responderId == "" && t.status == "" && t.lastSummary == ""
    ensures RequestTallies(t, []) && OutcomeTallies(t, [])
  {
  }

  lemma TouchedTask(t: Task, d: Delivery)
    ensures var t' := TouchTask(d.msg, d.payload)(t);
            t'.firstSeen == t.firstSeen && t'.lastSeen == d.msg.timestamp && t'.id == t.id
  {
    hide FirstNonEmpty;
  }

  lemma {:induction false} TasksTally(ds: seq<Delivery>, id: string)
    ensures id in TasksOf(ds) <==> TaskPart(ds, id) != []
    ensures id in TasksOf(ds) ==> TaskTallies(TasksOf(ds)[id], TaskPart(ds, id))
    decreases |ds|
  {
    hide RequestTallies, OutcomeTallies, TouchTask, Blank;
    if ds != [] {
      var front, d := ds[..|ds| - 1], ds[|ds| - 1];
      TasksTally(front, id);
      var part := TaskPart(front, id);
      if !Blank(d.msg.taskId) && d.msg.taskId == id {
        var untouched := Task(id, "", "", "", "", "", "", "", d.msg.timestamp, "");
        NothingTallies(untouched);
        var t := Lookup(TasksOf(front), id, untouched);
        RequestGoesOn(t, part, d);
        OutcomeGoesOn(t, part, d);
        TouchedTask(t, d);
      } else {
        assert part + [] == part;
      }
    }
  }

  // ---------- the snapshot of a run ----------

  /** MAIN RESULT.  In every run, under every interleaving and whichever transactions fail: each
      flow, trace and task of the snapshot is the tally of the records that counted for it, and
      each record that counted has its flow, trace and task. */
  lemma SnapshotIsTally(limit: int, states: seq<State>, events: seq<Event>, committed: seq<bool>, n: nat)
    requires IsRun(limit, states, events, committed)
    requires n <= |events| && |committed| == |events| && |states| == |events| + 1
    ensures var doc, ds := states[n].doc, CountedRecords(states, events, committed, n);
            && (forall f :: f in doc.flows ==> FlowTallies(f, FlowPart(ds, f.id)))
            && (forall t :: t in doc.traces ==> TraceTallies(t, TracePart(ds, t.id)))
            && (forall t :: t in doc.tasks ==> TaskTallies(t, TaskPart(ds, t.id)))
            && (forall id :: FlowPart(ds, id) != [] ==> id in Ids(doc.flows, FlowId))
            && (forall id :: TracePart(ds, id) != [] ==> id in Ids(doc.traces, TraceId))
            && (forall id :: TaskPart(ds, id) != [] ==> id in Ids(doc.tasks, TaskId))
  {
    hide *;
    TablesAddUp(limit, states, events, committed, n);
    AccountsBalance(limit, states, events, committed, n);
    SoundParts(states[n].doc);
    var ds := CountedRecords(states, events, committed, n);
    ListedFlows(states[n].doc, ds);
    ListedTraces(states[n].doc, ds);
    ListedTasks(states[n].doc, ds);
  }

  lemma ListedFlows(doc: Snapshot, ds: seq<Delivery>)
    requires DistinctIds(doc.flows, FlowId) && AddsUpTo(doc, ds)
    ensures forall f :: f in doc.flows ==> FlowTallies(f, FlowPart(ds, f.id))
    ensures forall id :: FlowPart(ds, id) != [] ==> id in Ids(doc.flows, FlowId)
  {
    ByIdHolds(doc.flows, FlowId);
    assert Table(doc.flows, FlowId, CoreFlow) == FlowsOf(ds);
    hide FlowsOf, FlowPart, IsLatest, Column, AddsUpTo;
    forall f | f in doc.flows ensures FlowTallies(f, FlowPart(ds, f.id)) {
      assert f.id in ById(doc.flows, FlowId) && ById(doc.flows, FlowId)[f.id] == f;
      FlowsTally(ds, f.id);
    }
    forall id | FlowPart(ds, id) != [] ensures id in Ids(doc.flows, FlowId) {
      FlowsTally(ds, id);
    }
  }

  lemma ListedTraces(doc: Snapshot, ds: seq<Delivery>)
    requires DistinctIds(doc.traces, TraceId) && AddsUpTo(doc, ds)
    ensures forall t :: t in doc.traces ==> TraceTallies(t, TracePart(ds, t.id))
    ensures forall id :: TracePart(ds, id) != [] ==> id in Ids(doc.traces, TraceId)
  {
    ByIdHolds(doc.traces, TraceId);
    assert Table(doc.traces, TraceId, CoreTrace) == TracesOf(ds);
    hide TracesOf, TracePart, IsLatest, IsLastGiven, Column, AddsUpTo;
    forall t | t in doc.traces ensures TraceTallies(t, TracePart(ds, t.id)) {
      assert t.id in ById(doc.traces, TraceId) && ById(doc.traces, TraceId)[t.id] == t;
      TracesTally(ds, t.id);
    }
    forall id | TracePart(ds, id) != [] ensures id in Ids(doc.traces, TraceId) {
      TracesTally(ds, id);
    }
  }

  lemma ListedTasks(doc: Snapshot, ds: seq<Delivery>)
    requires DistinctIds(doc.tasks, TaskId) && AddsUpTo(doc, ds)
    ensures forall t :: t in doc.tasks ==> TaskTallies(t, TaskPart(ds, t.id))
    ensures forall id :: TaskPart(ds, id) != [] ==> id in Ids(doc.tasks, TaskId)
  {
    ByIdHolds(doc.tasks, TaskId);
    assert ById(doc.tasks, TaskId) == TasksOf(ds);
    hide TasksOf, TaskPart, TaskTallies, AddsUpTo;
    forall t | t in doc.tasks ensures TaskTallies(t, TaskPart(ds, t.id)) {
      assert t.id in ById(doc.tasks, TaskId) && ById(doc.tasks, TaskId)[t.id] == t;
      TasksTally(ds, t.id);
    }
    forall id | TaskPart(ds, id) != [] ensures id in Ids(doc.tasks, TaskId) {
      TasksTally(ds, id);
    }
  }

  // ---------- the counters ----------

  /** The rejects that were noted. */
  function NotedRejects(events: seq<Event>, committed: seq<bool>, n: nat): seq<Event>
    requires n <= |events| && |committed| == |events|
  {
    if n == 0 then []
    else NotedRejects(events, committed, n - 1)
         + if committed[n - 1] && events[n - 1].Reject? then [events[n - 1]] else []
  }

  function ReasonsOf(rejects: seq<Event>): multiset<string> {
    if rejects == [] then multiset{}
    else
      var last := rejects[|rejects| - 1];
      ReasonsOf(rejects[..|rejects| - 1]) + if last.Reject? then multiset{last.reason} else multiset{}
  }

  function MirroredOf(rejects: seq<Event>): nat {
    if rejects == [] then 0
    else
      var last := rejects[|rejects| - 1];
      MirroredOf(rejects[..|rejects| - 1]) + if last.Reject? && last.mirrored then 1 else 0
  }

  ghost predicate CountersAre(h: Health, counted: nat, rejects: seq<Event>) {
    && h.accepted == counted && h.rejected == |rejects| && h.rejectedByReason == ReasonsOf(rejects)
    && h.mirrored == MirroredOf(rejects) && h.mirrorFailed == |rejects| - MirroredOf(rejects)
  }

  lemma OneReject(rejects: seq<Event>, e: Event)
    requires e.Reject?
    ensures ReasonsOf(rejects + [e]) == ReasonsOf(rejects) + multiset{e.reason}
    ensures MirroredOf(rejects + [e]) == MirroredOf(rejects) + if e.mirrored then 1 else 0
  {
    assert (rejects + [e])[..|rejects|] == rejects;
  }

  lemma StepCounts(
      limit: int, s: State, e: Event, committed: bool, s': State, counted: nat, rejects: seq<Event>)
    requires if committed then Commits(limit, s, e, s') else s' == s
    requires CountersAre(s.doc.health, counted, rejects)
    ensures CountersAre(s'.doc.health, counted + |CountedBy(s, e, committed)|,
                        rejects + if committed && e.Reject? then [e] else [])
  {
    hide AcceptStep, ReloadStep, ReasonsOf, MirroredOf;
    assert rejects + [] == rejects;
    if committed && e.Accept? {
      if e.msg.id in Ids(s.doc.messages, MessageId) {
        RepeatIsNoStep(limit, s, e, s');
      } else {
        AcceptedParts(limit, s.doc, e.msg, e.payload, s'.doc);
      }
      hide Ids;
    } else if committed && e.Reload? {
      SameHealth(s.doc, e.lostFlows, e.lostTraces, s'.doc);
    } else if committed && e.Reject? {
      OneReject(rejects, e);
    }
  }

  lemma SameHealth(doc: Snapshot, lostFlows: set<string>, lostTraces: set<string>, doc': Snapshot)
    requires ReloadStep(doc, lostFlows, lostTraces, doc')
    ensures doc'.health == doc.health
  {
    hide ReadFlows, ReadTraces;
  }

  /** MAIN RESULT.  In every run the counters are right: accepted is the number of records that counted,
      rejected the number of noted rejects, each under its reason and as mirrored or not. */
  lemma {:induction false} CountersAddUp(
      limit: int, states: seq<State>, events: seq<Event>, committed: seq<bool>, n: nat)
    requires IsRun(limit, states, events, committed)
    requires n <= |events| && |committed| == |events| && |states| == |events| + 1
    ensures CountersAre(states[n].doc.health, |CountedRecords(states, events, committed, n)|,
                        NotedRejects(events, committed, n))
  {
    hide Commits, CountersAre, CountedBy, IsRun;
    RunShape(limit, states, events, committed);
    CountedStep(states, events, committed, n);
    if n == 0 {
      NothingCounted();
    } else {
      CountersAddUp(limit, states, events, committed, n - 1);
      RunStep(limit, states, events, committed, n - 1);
      StepCounts(limit, states[n - 1], events[n - 1], committed[n - 1], states[n],
                 |CountedRecords(states, events, committed, n - 1)|, NotedRejects(events, committed, n - 1));
    }
  }

  lemma NothingCounted()
    ensures CountersAre(START.doc.health, 0, [])
  {
  }

  // ---------- within the window ----------

  /** While the distinct records fit into the window, the records that count are the first
      occurrences of those delivered. */
  lemma {:induction false} CountedAreFirsts(
      limit: int, states: seq<State>, events: seq<Event>, committed: seq<bool>, n: nat)
    requires IsRun(limit, states, events, committed)
    requires n <= |events| && |committed| == |events| && |states| == |events| + 1
    requires limit <= 0 || |DeliveredIds(Deliveries(events, committed))| <= limit
    ensures CountedRecords(states, events, committed, n) == FirstDeliveries(Deliveries(events[..n], committed[..n]))
  {
    hide *;
    CountedStep(states, events, committed, n);
    if n == 0 {
      NoFirsts(events, committed);
    } else {
      CountedAreFirsts(limit, states, events, committed, n - 1);
      RunRefines(limit, states, events, committed, n - 1);
      var before := Deliveries(events[..n - 1], committed[..n - 1]);
      AccountsBalance(limit, states, events, committed, n - 1);
      ViewSize(states[n - 1].doc);
      DeliverAllKeys(before);
      assert forall id :: id in DeliveredIds(before) <==> id in Ids(states[n - 1].doc.messages, MessageId);
      DeliveriesStep(events, committed, n - 1);
      FirstsStep(states[n - 1], before, events[n - 1], committed[n - 1]);
    }
  }

  lemma NoFirsts(events: seq<Event>, committed: seq<bool>)
    requires |events| == |committed|
    ensures FirstDeliveries(Deliveries(events[..0], committed[..0])) == []
  {
  }

  lemma FirstsStep(s: State, before: seq<Delivery>, e: Event, committed: bool)
    requires forall id :: id in DeliveredIds(before) <==> id in Ids(s.doc.messages, MessageId)
    ensures FirstDeliveries(before + Delivered(e, committed)) == FirstDeliveries(before) + CountedBy(s, e, committed)
  {
    hide DeliveredIds;
    if committed && e.Accept? {
      assert (before + Delivered(e, committed))[..|before|] == before;
    } else {
      assert before + [] == before;
    }
  }
}
