/** Flows live in two tables, one row per flow and one row per participant, and are put
    together again when they are listed. */
module FlowTables {
  import opened Ordering
  import opened Text
  import opened Lists
  import opened Records
  import opened Ingest
  import opened IngestRuns
  import Keyset

  /** A NULL column is the empty string here, as it is once read. */
  datatype FlowRow = FlowRow(
    id: string, firstSeen: string, lastSeen: string, messageCount: nat, latestStatus: string, latestPreview: string)

  datatype Participant = Participant(flow: string, kind: string, value: string)

  function EmptyToNull(s: string): string {
    if Blank(s) then "" else s
  }

  // ---------- splitting ----------

  function RowOf(f: Flow): FlowRow {
    FlowRow(f.id, f.firstSeen, f.lastSeen, f.messageCount, EmptyToNull(f.latestStatus), EmptyToNull(f.latestPreview))
  }

  function Tagged(flow: string, kind: string, values: seq<string>): seq<Participant> {
    seq(|values|, i requires 0 <= i < |values| => Participant(flow, kind, values[i]))
  }

  function ParticipantsOf(f: Flow): seq<Participant> {
    Tagged(f.id, "topic", f.topics) + Tagged(f.id, "sender", f.senders)
    + Tagged(f.id, "trace", f.traceIds) + Tagged(f.id, "task", f.taskIds)
  }

  function AllRows(fs: seq<Flow>): seq<FlowRow> {
    seq(|fs|, i requires 0 <= i < |fs| => RowOf(fs[i]))
  }

  function AllParticipants(fs: seq<Flow>): seq<Participant> {
    if fs == [] then [] else AllParticipants(fs[..|fs| - 1]) + ParticipantsOf(fs[|fs| - 1])
  }

  /** What the primary keys of the two tables demand. */
  ghost predicate Insertable(fs: seq<Flow>) {
    && DistinctIds(fs, FlowId)
    && forall f :: f in fs ==> PlainLists(f)
  }

  ghost predicate PlainLists(f: Flow) {
    NoDuplicates(f.topics) && NoDuplicates(f.senders) && NoDuplicates(f.traceIds) && NoDuplicates(f.taskIds)
  }

  lemma SoundIsInsertable(doc: Snapshot)
    requires Sound(doc)
    ensures Insertable(doc.flows)
  {
  }

  /** Every snapshot that a run reaches can be written. */
  lemma ReachedIsInsertable(
      limit: int, states: seq<IngestRuns.State>, events: seq<IngestRuns.Event>, committed: seq<bool>, i: nat)
    requires IngestRuns.IsRun(limit, states, events, committed) && i < |states|
    ensures Insertable(states[i].doc.flows)
  {
    hide *;
    IngestRuns.AccountsBalance(limit, states, events, committed, i);
    SoundIsInsertable(states[i].doc);
  }

  class FlowDb {
    var flows: seq<FlowRow>
    var participants: seq<Participant>

    constructor ()
      ensures flows == [] && participants == []
    {
      flows, participants := [], [];
    }

    /** Inserts one list of a flow; the primary key refuses a row that is already there. */
    method InsertValues(flow: string, kind: string, values: seq<string>) returns (ok: bool)
      requires forall v :: v in values ==> Participant(flow, kind, v) !in participants
      modifies this`participants
      ensures ok <==> NoDuplicates(values)
      ensures ok ==> participants == old(participants) + Tagged(flow, kind, values)
    {
      for i := 0 to |values|
        invariant NoDuplicates(values[..i])
        invariant participants == old(participants) + Tagged(flow, kind, values[..i])
      {
        var row := Participant(flow, kind, values[i]);
        TaggedHolds(flow, kind, values[..i]);
        assert values[i] in values;
        assert row in participants <==> values[i] in values[..i];
        if row in participants {
          return false;
        }
        participants := participants + [row];
        assert values[..i + 1] == values[..i] + [values[i]];
        assert Tagged(flow, kind, values[..i + 1]) == Tagged(flow, kind, values[..i]) + [row];
      }
      assert values[..|values|] == values;
      return true;
    }

    /** Fills the two cleared tables; it fails exactly if a flow id or, within one list of a
        flow, a value occurs twice.  The caller rolls a failed transaction back. */
    method InsertFlows(fs: seq<Flow>) returns (ok: bool)
      requires flows == [] && participants == []
      modifies this
      ensures ok <==> Insertable(fs)
      ensures ok ==> flows == AllRows(fs) && participants == AllParticipants(fs)
      ensures ok ==> |flows| == |fs| && forall i :: 0 <= i < |fs| ==> Stores(flows[i], fs[i])
      ensures ok ==> forall p :: p in participants <==> exists f :: f in fs && TakesPart(f, p)
    {
      hide Insertable, ParticipantsOf, AllParticipants, AllRows, Tagged;
      NoFlows();
      for i := 0 to |fs|
        invariant Insertable(fs[..i])
        invariant flows == AllRows(fs[..i]) && participants == AllParticipants(fs[..i])
      {
        var f := fs[i];
        ghost var before := fs[..i];
        assert fs[..i + 1] == before + [f];
        OneFlowMore(before, f);
        PrefixInsertable(fs, i + 1);
        var taken := false;
        for k := 0 to |flows|
          invariant taken <==> exists j :: 0 <= j < k && flows[j].id == f.id
        {
          if flows[k].id == f.id {
            taken := true;
          }
        }
        RowIds(before, f.id);
        if taken {
          return false;
        }
        flows := flows + [RowOf(f)];
        NewFlowHasNoRows(before, f);
        ok := InsertValues(f.id, "topic", f.topics);
        if !ok { return; }
        TaggedKinds(f);
        ok := InsertValues(f.id, "sender", f.senders);
        if !ok { return; }
        ok := InsertValues(f.id, "trace", f.traceIds);
        if !ok { return; }
        ok := InsertValues(f.id, "task", f.taskIds);
        if !ok { return; }
      }
      assert fs[..|fs|] == fs;
      RowsStore(fs);
      ParticipantsAre(fs);
      return true;
    }
  }

  /** The row of a flow: its columns, a blank text as NULL. */
  predicate Stores(row: FlowRow, f: Flow) {
    && row.id == f.id && row.firstSeen == f.firstSeen && row.lastSeen == f.lastSeen
    && row.messageCount == f.messageCount
    && row.latestStatus == (if Blank(f.latestStatus) then "" else f.latestStatus)
    && row.latestPreview == (if Blank(f.latestPreview) then "" else f.latestPreview)
  }

  predicate TakesPart(f: Flow, p: Participant) {
    && p.flow == f.id
    && (|| (p.kind == "topic" && p.value in f.topics) || (p.kind == "sender" && p.value in f.senders)
        || (p.kind == "trace" && p.value in f.traceIds) || (p.kind == "task" && p.value in f.taskIds))
  }

  lemma RowsStore(fs: seq<Flow>)
    ensures |AllRows(fs)| == |fs| && forall i :: 0 <= i < |fs| ==> Stores(AllRows(fs)[i], fs[i])
  {
    hide Blank;
  }

  lemma ParticipantsAre(fs: seq<Flow>)
    ensures forall p :: p in AllParticipants(fs) <==> exists f :: f in fs && TakesPart(f, p)
  {
    TableHolds(fs);
    forall f, p ensures p in ParticipantsOf(f) <==> TakesPart(f, p) {
      RowsOfOneFlow(f);
    }
    hide ParticipantsOf, AllParticipants, TakesPart;
  }

  lemma TaggedHolds(flow: string, kind: string, values: seq<string>)
    ensures forall p :: p in Tagged(flow, kind, values) <==> p.flow == flow && p.kind == kind && p.value in values
  {
    var rows := Tagged(flow, kind, values);
    forall v | v in values ensures Participant(flow, kind, v) in rows {
      var i :| 0 <= i < |values| && values[i] == v;
      assert rows[i] == Participant(flow, kind, v);
    }
  }

  lemma TaggedKinds(f: Flow)
    ensures forall p :: p in Tagged(f.id, "topic", f.topics) ==> p.kind == "topic"
    ensures forall p :: p in Tagged(f.id, "sender", f.senders) ==> p.kind == "sender"
    ensures forall p :: p in Tagged(f.id, "trace", f.traceIds) ==> p.kind == "trace"
    ensures ParticipantsOf(f) == Tagged(f.id, "topic", f.topics) + Tagged(f.id, "sender", f.senders)
                                 + Tagged(f.id, "trace", f.traceIds) + Tagged(f.id, "task", f.taskIds)
  {
    TaggedHolds(f.id, "topic", f.topics);
    TaggedHolds(f.id, "sender", f.senders);
    TaggedHolds(f.id, "trace", f.traceIds);
  }

  lemma NoFlows()
    ensures Insertable([]) && AllRows([]) == [] && AllParticipants([]) == []
  {
  }

  lemma OneFlowMore(fs: seq<Flow>, f: Flow)
    ensures AllRows(fs + [f]) == AllRows(fs) + [RowOf(f)]
    ensures AllParticipants(fs + [f]) == AllParticipants(fs) + ParticipantsOf(f)
    ensures Insertable(fs + [f]) <==> Insertable(fs) && PlainLists(f) && f.id !in Ids(fs, FlowId)
  {
    assert (fs + [f])[..|fs|] == fs;
    if Insertable(fs + [f]) {
      assert forall x :: x in fs ==> x in fs + [f];
      forall i, j | 0 <= i < j < |fs| ensures fs[i].id != fs[j].id {
        assert (fs + [f])[i] == fs[i] && (fs + [f])[j] == fs[j];
      }
      forall i | 0 <= i < |fs| ensures fs[i].id != f.id {
        assert (fs + [f])[i] == fs[i] && (fs + [f])[|fs|] == f;
      }
      assert f in fs + [f];
    }
  }

  lemma PrefixInsertable(fs: seq<Flow>, n: nat)
    requires n <= |fs|
    ensures Insertable(fs) ==> Insertable(fs[..n])
  {
  }

  lemma RowIds(fs: seq<Flow>, id: string)
    ensures |AllRows(fs)| == |fs|
    ensures id in Ids(fs, FlowId) <==> exists j :: 0 <= j < |fs| && AllRows(fs)[j].id == id
  {
    if id in Ids(fs, FlowId) {
      var f :| f in fs && f.id == id;
      var j :| 0 <= j < |fs| && fs[j] == f;
      assert AllRows(fs)[j].id == id;
    }
    if j :| 0 <= j < |fs| && AllRows(fs)[j].id == id {
      assert fs[j] in fs && FlowId(fs[j]) == id;
    }
  }

  /** The participants table holds exactly the values of the lists, each under its flow and kind. */
  lemma {:induction false} TableHolds(fs: seq<Flow>)
    ensures forall p :: p in AllParticipants(fs) <==> exists f :: f in fs && p in ParticipantsOf(f)
  {
    hide ParticipantsOf;
    if fs != [] {
      var init, last := fs[..|fs| - 1], fs[|fs| - 1];
      TableHolds(init);
      assert fs == init + [last];
    }
  }

  lemma RowsOfOneFlow(f: Flow)
    ensures forall p :: p in ParticipantsOf(f) <==>
              p.flow == f.id
              && ((p.kind == "topic" && p.value in f.topics) || (p.kind == "sender" && p.value in f.senders)
                  || (p.kind == "trace" && p.value in f.traceIds) || (p.kind == "task" && p.value in f.taskIds))
  {
    TaggedHolds(f.id, "topic", f.topics);
    TaggedHolds(f.id, "sender", f.senders);
    TaggedHolds(f.id, "trace", f.traceIds);
    TaggedHolds(f.id, "task", f.taskIds);
    hide Tagged;
  }

  lemma NewFlowHasNoRows(fs: seq<Flow>, f: Flow)
    requires f.id !in Ids(fs, FlowId)
    ensures forall p :: p in AllParticipants(fs) ==> p.flow != f.id
  {
    TableHolds(fs);
    hide ParticipantsOf, AllParticipants;
    forall p | p in AllParticipants(fs) ensures p.flow != f.id {
      var g :| g in fs && p in ParticipantsOf(g);
      RowsOfOneFlow(g);
    }
  }

  // ---------- putting together again ----------

  predicate ParticipantBefore(a: Participant, b: Participant) {
    || Less(a.flow, b.flow)
    || (a.flow == b.flow && Less(a.kind, b.kind))
    || (a.flow == b.flow && a.kind == b.kind && Less(a.value, b.value))
  }

  lemma ParticipantBeforeIsOrder()
    ensures StrictWeak(ParticipantBefore)
    ensures forall a, b :: ParticipantBefore(a, b) || a == b || ParticipantBefore(b, a)
  {
    LessIsOrder();
    forall a: Participant, b: Participant
      ensures (ParticipantBefore(a, b) ==> !ParticipantBefore(b, a))
              && (ParticipantBefore(a, b) || a == b || ParticipantBefore(b, a))
    {
      LessTotal(a.flow, b.flow);
      LessTotal(a.kind, b.kind);
      LessTotal(a.value, b.value);
    }
    forall a: Participant, b: Participant, c: Participant
      ensures ParticipantBefore(a, c) ==> ParticipantBefore(a, b) || ParticipantBefore(b, c)
    {
      LessTotal(a.flow, b.flow);
      LessTotal(b.flow, c.flow);
      LessTotal(a.kind, b.kind);
      LessTotal(b.kind, c.kind);
    }
  }

  /** The values listed under one flow and kind, in table order. */
  function ValuesOf(rows: seq<Participant>, flow: string, kind: string): seq<string> {
    if rows == [] then []
    else
      ValuesOf(rows[..|rows| - 1], flow, kind) +
      var last := rows[|rows| - 1];
      if last.flow == flow && last.kind == kind then [last.value] else []
  }

  function WithParticipants(f: Flow, rows: seq<Participant>): Flow {
    f.(topics := f.topics + ValuesOf(rows, f.id, "topic"), senders := f.senders + ValuesOf(rows, f.id, "sender"),
       traceIds := f.traceIds + ValuesOf(rows, f.id, "trace"), taskIds := f.taskIds + ValuesOf(rows, f.id, "task"))
  }

  function Counted(f: Flow): Flow {
    f.(topicCount := |f.topics|, senderCount := |f.senders|)
  }

  lemma {:induction false} ValuesAreOrdered(rows: seq<Participant>, flow: string, kind: string)
    requires Strictly(rows, ParticipantBefore)
    ensures Strictly(ValuesOf(rows, flow, kind), Less)
    ensures forall v :: v in ValuesOf(rows, flow, kind) <==> Participant(flow, kind, v) in rows
  {
    if rows != [] {
      var init, last := rows[..|rows| - 1], rows[|rows| - 1];
      ValuesAreOrdered(init, flow, kind);
      assert rows == init + [last];
      var values := ValuesOf(init, flow, kind);
      if last.flow == flow && last.kind == kind {
        forall v | v in values ensures Less(v, last.value) {
          var i :| 0 <= i < |init| && init[i] == Participant(flow, kind, v);
          assert ParticipantBefore(rows[i], rows[|rows| - 1]);
          LessTotal(flow, flow);
          LessTotal(kind, kind);
        }
        StrictJoin(values, [last.value], Less);
      }
    }
  }

  /** The rows of the query, in its order. */
  function Ordered(participants: seq<Participant>): seq<Participant> {
    Sort(participants, ParticipantBefore)
  }

  lemma ListComesBack(rows: seq<Participant>, flow: string, kind: string, values: seq<string>)
    requires Strictly(rows, ParticipantBefore) && NoDuplicates(values)
    requires forall v :: Participant(flow, kind, v) in rows <==> v in values
    ensures ValuesOf(rows, flow, kind) == SortStrings(values)
  {
    ValuesAreOrdered(rows, flow, kind);
    StringsSorted(values);
    SortedIsUnique(ValuesOf(rows, flow, kind), SortStrings(values));
  }

  lemma {:induction false} TableHasNoDuplicates(fs: seq<Flow>)
    requires Insertable(fs)
    ensures NoDuplicates(AllParticipants(fs))
  {
    if fs != [] {
      var init, last := fs[..|fs| - 1], fs[|fs| - 1];
      assert fs == init + [last];
      OneFlowMore(init, last);
      hide Insertable;
      TableHasNoDuplicates(init);
      NewFlowHasNoRows(init, last);
      RowsOfOneFlow(last);
      ListsHaveNoDuplicates(last);
      hide ParticipantsOf, PlainLists;
      JoinDistinct(AllParticipants(init), ParticipantsOf(last));
    }
  }

  lemma JoinDistinct<T>(s: seq<T>, t: seq<T>)
    requires NoDuplicates(s) && NoDuplicates(t) && forall x :: x in s ==> x !in t
    ensures NoDuplicates(s + t)
  {
    var both := s + t;
    forall i, j | 0 <= i < j < |both| ensures both[i] != both[j] {
      if i < |s| <= j {
        assert s[i] in s && t[j - |s|] in t;
      }
    }
  }

  lemma ListsHaveNoDuplicates(f: Flow)
    requires PlainLists(f)
    ensures NoDuplicates(ParticipantsOf(f))
  {
    TaggedKinds(f);
    TaggedHolds(f.id, "task", f.taskIds);
    var a, b := Tagged(f.id, "topic", f.topics), Tagged(f.id, "sender", f.senders);
    var c, d := Tagged(f.id, "trace", f.traceIds), Tagged(f.id, "task", f.taskIds);
    assert NoDuplicates(a) && NoDuplicates(b) && NoDuplicates(c) && NoDuplicates(d);
    hide Tagged, ParticipantsOf;
    JoinDistinct(a, b);
    JoinDistinct(a + b, c);
    JoinDistinct(a + b + c, d);
  }

  /** A flow as the row read from the table, before its participants are attached. */
  function Bare(row: FlowRow): Flow {
    Flow(row.id, row.firstSeen, row.lastSeen, row.messageCount, row.latestStatus, row.latestPreview,
         [], [], [], [], 0, 0)
  }

  /** What a flow looks like after it was split and put together again. */
  function Regrouped(f: Flow): Flow {
    f.(topics := SortStrings(f.topics), senders := SortStrings(f.senders), traceIds := SortStrings(f.traceIds),
       taskIds := SortStrings(f.taskIds), topicCount := |f.topics|, senderCount := |f.senders|,
       latestStatus := EmptyToNull(f.latestStatus), latestPreview := EmptyToNull(f.latestPreview))
  }

  /** MAIN RESULT.  Split any insertable flows into the two tables: attaching the participants to
      the row of a flow gives the flow back, its lists sorted, with nothing moved between flows
      or between kinds. */
  lemma SplitRegroup(fs: seq<Flow>, f: Flow)
    requires Insertable(fs) && f in fs
    ensures Counted(WithParticipants(Bare(RowOf(f)), Ordered(AllParticipants(fs)))) == Regrouped(f)
  {
    hide *;
    var rows := Ordered(AllParticipants(fs));
    OrderedTable(fs);
    RowsOfOneFlow(f);
    forall kind, v ensures Participant(f.id, kind, v) in rows <==> Participant(f.id, kind, v) in ParticipantsOf(f) {
      OwnRows(fs, f, Participant(f.id, kind, v));
    }
    PlainListsOf(fs, f);
    ListComesBack(rows, f.id, "topic", f.topics);
    ListComesBack(rows, f.id, "sender", f.senders);
    ListComesBack(rows, f.id, "trace", f.traceIds);
    ListComesBack(rows, f.id, "task", f.taskIds);
    FieldByField(f, rows);
  }

  lemma OrderedTable(fs: seq<Flow>)
    requires Insertable(fs)
    ensures Strictly(Ordered(AllParticipants(fs)), ParticipantBefore)
    ensures forall p :: p in Ordered(AllParticipants(fs)) <==> p in AllParticipants(fs)
  {
    var table := AllParticipants(fs);
    TableHasNoDuplicates(fs);
    ParticipantBeforeIsOrder();
    hide AllParticipants, Insertable;
    SortIsStrict(table, ParticipantBefore);
  }

  lemma FieldByField(f: Flow, rows: seq<Participant>)
    requires ValuesOf(rows, f.id, "topic") == SortStrings(f.topics) && NoDuplicates(f.topics)
    requires ValuesOf(rows, f.id, "sender") == SortStrings(f.senders) && NoDuplicates(f.senders)
    requires ValuesOf(rows, f.id, "trace") == SortStrings(f.traceIds)
    requires ValuesOf(rows, f.id, "task") == SortStrings(f.taskIds)
    ensures Counted(WithParticipants(Bare(RowOf(f)), rows)) == Regrouped(f)
  {
    hide ValuesOf, SortStrings, EmptyToNull;
    StringsSorted(f.topics);
    StringsSorted(f.senders);
    var g := WithParticipants(Bare(RowOf(f)), rows);
    assert g.topics == SortStrings(f.topics) && g.senders == SortStrings(f.senders);
    assert g.traceIds == SortStrings(f.traceIds) && g.taskIds == SortStrings(f.taskIds);
  }

  lemma PlainListsOf(fs: seq<Flow>, f: Flow)
    requires Insertable(fs) && f in fs
    ensures NoDuplicates(f.topics) && NoDuplicates(f.senders) && NoDuplicates(f.traceIds) && NoDuplicates(f.taskIds)
  {
  }

  lemma OwnRows(fs: seq<Flow>, f: Flow, p: Participant)
    requires Insertable(fs) && f in fs && p.flow == f.id
    ensures p in AllParticipants(fs) <==> p in ParticipantsOf(f)
  {
    TableHolds(fs);
    hide AllParticipants, ParticipantsOf;
    if p in AllParticipants(fs) {
      var g :| g in fs && p in ParticipantsOf(g);
      RowsOfOneFlow(g);
    }
  }

  /** Which position of the page a flow id stands at. */
  ghost predicate IsIndex(page: seq<Flow>, index: map<string, nat>) {
    && (forall k :: k in index ==> index[k] < |page| && page[index[k]].id == k)
    && (forall i :: 0 <= i < |page| ==> page[i].id in index)
  }

  method IndexOfPage(page: seq<Flow>) returns (index: map<string, nat>)
    ensures IsIndex(page, index)
  {
    index := map[];
    for i := 0 to |page|
      invariant forall k :: k in index ==> index[k] < i && page[index[k]].id == k
      invariant forall j :: 0 <= j < i ==> page[j].id in index
    {
      index := index[page[i].id := i];
    }
  }

  /** One participant row goes to the flow it names, if that is on the page. */
  method AttachRow(
      page: seq<Flow>, index: map<string, nat>, ghost rows: seq<Participant>,
      row: Participant, was: seq<Flow>)
    returns (out: seq<Flow>)
    requires DistinctIds(page, FlowId) && IsIndex(page, index) && |was| == |page|
    requires forall i :: 0 <= i < |page| ==> was[i] == WithParticipants(page[i], rows)
    ensures |out| == |page|
    ensures forall i :: 0 <= i < |page| ==> out[i] == WithParticipants(page[i], rows + [row])
  {
    hide DistinctIds, WithParticipants, Append, IsIndex;
    out := was;
    InPage(page, index, row.flow);
    if row.flow in index {
      var f := out[index[row.flow]];
      out := out[index[row.flow] := Append(f, row.kind, row.value)];
    }
    forall i | 0 <= i < |page| ensures out[i] == WithParticipants(page[i], rows + [row]) {
      OneRowMore(page[i], rows, row);
      OwnPosition(page, index, i, row.flow);
    }
  }

  lemma InPage(page: seq<Flow>, index: map<string, nat>, id: string)
    requires IsIndex(page, index)
    ensures id in index ==> index[id] < |page|
  {
  }

  lemma OwnPosition(page: seq<Flow>, index: map<string, nat>, i: nat, id: string)
    requires DistinctIds(page, FlowId) && IsIndex(page, index) && i < |page|
    ensures page[i].id == id <==> id in index && index[id] == i
  {
    if page[i].id == id {
      assert FlowId(page[index[id]]) == FlowId(page[i]);
    }
  }

  /** Walks the ordered participant rows and appends each value to the list of its flow. */
  method AttachFlowParticipants(participants: seq<Participant>, page: seq<Flow>) returns (out: seq<Flow>)
    requires DistinctIds(page, FlowId)
    ensures |out| == |page|
    ensures forall i :: 0 <= i < |page| ==> out[i] == Counted(WithParticipants(page[i], Ordered(participants)))
  {
    hide *;
    var index := IndexOfPage(page);
    out := page;
    var rows := Ordered(participants);
    forall f ensures WithParticipants(f, []) == f {
      NoRowsYet(f);
    }
    assert rows[..0] == [];
    for n := 0 to |rows|
      invariant |out| == |page|
      invariant forall i :: 0 <= i < |page| ==> out[i] == WithParticipants(page[i], rows[..n])
    {
      assert rows[..n + 1] == rows[..n] + [rows[n]];
      out := AttachRow(page, index, rows[..n], rows[n], out);
    }
    assert rows[..|rows|] == rows;
    var counted := out;
    for i := 0 to |out|
      invariant |counted| == |out| && counted[i..] == out[i..]
      invariant forall j :: 0 <= j < i ==> counted[j] == Counted(out[j])
    {
      counted := counted[i := Counted(counted[i])];
    }
    out := counted;
  }

  function Append(f: Flow, kind: string, value: string): Flow {
    if kind == "topic" then f.(topics := f.topics + [value])
    else if kind == "sender" then f.(senders := f.senders + [value])
    else if kind == "trace" then f.(traceIds := f.traceIds + [value])
    else if kind == "task" then f.(taskIds := f.taskIds + [value])
    else f
  }

  lemma NoRowsYet(f: Flow)
    ensures WithParticipants(f, []) == f
  {
  }

  lemma OneRowMore(f: Flow, rows: seq<Participant>, row: Participant)
    ensures WithParticipants(f, rows + [row]) ==
            if row.flow == f.id then Append(WithParticipants(f, rows), row.kind, row.value)
            else WithParticipants(f, rows)
  {
    assert (rows + [row])[..|rows|] == rows;
  }

  // ---------- listing ----------

  function Keyed(rows: seq<FlowRow>): seq<Keyset.Row<FlowRow>> {
    seq(|rows|, i requires 0 <= i < |rows| => Keyset.Row(Keyset.Key(rows[i].lastSeen, rows[i].id), rows[i]))
  }

  /** One page of flows: the page of rows that keyset pagination gives, each row with the
      participants of its flow. */
  method ListFlows(
      db: FlowDb, matches: Keyset.Row<FlowRow> -> bool, limit: int, after: Keyset.Cursor)
    returns (flows: seq<Flow>, next: Keyset.Cursor, ok: bool)
    requires Keyset.DistinctIds(Keyed(db.flows))
    ensures var page := Keyset.PageOf(Keyed(db.flows), matches, limit, after);
            && (ok <==> page.Page?)
            && (ok ==>
                  && next == page.next && |flows| == |page.rows|
                  && forall i :: 0 <= i < |flows| ==>
                       flows[i] == Counted(WithParticipants(Bare(page.rows[i].item), Ordered(db.participants))))
  {
    var page := Keyset.List(Keyed(db.flows), matches, limit, after);
    if page.BadCursor? {
      return [], Keyset.Blank, false;
    }
    var bare: seq<Flow> := seq(|page.rows|, i requires 0 <= i < |page.rows| => Bare(page.rows[i].item));
    PageIsDistinct(db.flows, matches, limit, after);
    hide Keyset.PageOf, Keyset.DistinctIds, WithParticipants, Ordered, Counted;
    var out := AttachFlowParticipants(db.participants, bare);
    return out, page.next, true;
  }

  lemma PageIsDistinct(rows: seq<FlowRow>, matches: Keyset.Row<FlowRow> -> bool, limit: int, after: Keyset.Cursor)
    requires Keyset.DistinctIds(Keyed(rows)) && Keyset.Decodes(after)
    ensures var page := Keyset.PageOf(Keyed(rows), matches, limit, after);
            && page.Page?
            && DistinctIds(seq(|page.rows|, i requires 0 <= i < |page.rows| => Bare(page.rows[i].item)), FlowId)
  {
    var page := Keyset.PageOf(Keyed(rows), matches, limit, after);
    Keyset.PageIsSlice(Keyed(rows), matches, limit, after);
    Keyset.KeyBeforeIsOrder();
    hide Keyset.PageOf, Keyset.KeyBefore;
    forall i, j | 0 <= i < j < |page.rows| ensures page.rows[i].item.id != page.rows[j].item.id {
      var a, b := page.rows[i], page.rows[j];
      assert a in page.rows && b in page.rows && Keyset.RowBefore(a, b);
      var k :| 0 <= k < |rows| && Keyed(rows)[k] == a;
      var l :| 0 <= l < |rows| && Keyed(rows)[l] == b;
      assert k != l;
      assert Keyed(rows)[k].key.id != Keyed(rows)[l].key.id;
    }
  }

  /** MAIN RESULT.  After any insertable flows were inserted, every flow on every page of every
      listing is one of them, whole. */
  lemma ListedFlowsAreWhole(
      fs: seq<Flow>, matches: Keyset.Row<FlowRow> -> bool, limit: int, after: Keyset.Cursor, i: nat)
    requires Insertable(fs) && Keyset.Decodes(after)
    requires var page := Keyset.PageOf(Keyed(AllRows(fs)), matches, limit, after); page.Page? && i < |page.rows|
    ensures var page := Keyset.PageOf(Keyed(AllRows(fs)), matches, limit, after);
            exists f :: f in fs && page.rows[i] == Keyset.Row(Keyset.Key(f.lastSeen, f.id), RowOf(f))
              && Counted(WithParticipants(Bare(page.rows[i].item), Ordered(AllParticipants(fs)))) == Regrouped(f)
  {
    var table := Keyed(AllRows(fs));
    var page := Keyset.PageOf(table, matches, limit, after);
    assert Keyset.DistinctIds(table) by {
      forall a, b | 0 <= a < b < |table| ensures table[a].key.id != table[b].key.id {
        assert FlowId(fs[a]) != FlowId(fs[b]);
      }
    }
    Keyset.PageIsSlice(table, matches, limit, after);
    hide Keyset.PageOf, Keyset.DistinctIds, Insertable, Counted, WithParticipants, Ordered;
    var r := page.rows[i];
    assert r in page.rows && r in table;
    var k :| 0 <= k < |table| && table[k] == r;
    assert AllRows(fs)[k] == RowOf(fs[k]);
    SplitRegroup(fs, fs[k]);
  }
}
