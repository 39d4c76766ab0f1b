/** Listing a store that a run has reached: no row lacks a time or an id, so every crawl ends, and it
    lists each flow and each message it should, once and whole. */
module Listings {
  import opened Ordering
  import opened Text
  import opened Records
  import opened Ingest
  import opened IngestRuns
  import opened FlowTables
  import L = Lists
  import R = Redelivery
  import Keyset
  import Tally

  // ---------- every row has a time and an id ----------

  /** Record ids hold colons and timestamps are formatted instants: neither is empty. */
  ghost predicate Stamped(events: seq<Event>) {
    forall i :: 0 <= i < |events| && events[i].Accept? ==> events[i].msg.id != "" && events[i].msg.timestamp != ""
  }

  ghost predicate CompleteMessages(doc: Snapshot) {
    forall m :: m in doc.messages ==> m.id != "" && m.timestamp != ""
  }

  ghost predicate CompleteFlows(doc: Snapshot) {
    forall f :: f in doc.flows ==> f.id != "" && f.lastSeen != ""
  }

  lemma StepKeepsComplete(limit: int, s: State, e: Event, s': State)
    requires Sound(s.doc) && CompleteMessages(s.doc) && Commits(limit, s, e, s')
    requires e.Accept? ==> e.msg.id != "" && e.msg.timestamp != ""
    ensures CompleteMessages(s'.doc)
  {
    match e
    case Accept(msg, payload) =>
      if msg.id !in L.Ids(s.doc.messages, MessageId) {
        AcceptedParts(limit, s.doc, msg, payload, s'.doc);
        SoundParts(s.doc);
        RetainedMessages(limit, s.doc.messages, msg, s'.doc.messages);
      }
    case Reload(_, _) =>
      hide Sound, ReadFlows, ReadTraces, InOrder;
      SameMembers(s.doc.messages, s'.doc.messages);
    case _ =>
  }

  lemma {:induction false} MessagesAreComplete(
      limit: int, states: seq<State>, events: seq<Event>, committed: seq<bool>, n: nat)
    requires IsRun(limit, states, events, committed) && Stamped(events) && n < |states|
    ensures CompleteMessages(states[n].doc)
  {
    RunShape(limit, states, events, committed);
    if n > 0 {
      MessagesAreComplete(limit, states, events, committed, n - 1);
      AccountsBalance(limit, states, events, committed, n - 1);
      RunStep(limit, states, events, committed, n - 1);
      hide Sound, Balanced, CompleteMessages, Commits, IsRun;
      if committed[n - 1] {
        StepKeepsComplete(limit, states[n - 1], events[n - 1], states[n]);
      }
    }
  }

  /** The records that counted were accepted. */
  lemma {:induction false} CountedWereAccepted(
      states: seq<State>, events: seq<Event>, committed: seq<bool>, n: nat)
    requires n <= |events| && |committed| == |events| && |states| == |events| + 1 && Stamped(events)
    ensures forall d :: d in Tally.CountedRecords(states, events, committed, n) ==>
              d.msg.id != "" && d.msg.timestamp != ""
    decreases n
  {
    if n > 0 {
      CountedWereAccepted(states, events, committed, n - 1);
    }
  }

  lemma {:induction false} PartIsOf(ds: seq<R.Delivery>, id: string)
    ensures forall d :: d in Tally.FlowPart(ds, id) ==> d in ds && FallbackId(d.msg.correlation, d.msg.id) == id
    decreases |ds|
  {
    hide FallbackId;
    if ds != [] {
      PartIsOf(ds[..|ds| - 1], id);
    }
  }

  lemma FlowsAreComplete(limit: int, states: seq<State>, events: seq<Event>, committed: seq<bool>, n: nat)
    requires IsRun(limit, states, events, committed) && Stamped(events) && n < |states|
    ensures CompleteFlows(states[n].doc)
  {
    RunShape(limit, states, events, committed);
    Tally.SnapshotIsTally(limit, states, events, committed, n);
    CountedWereAccepted(states, events, committed, n);
    var ds := Tally.CountedRecords(states, events, committed, n);
    hide IsRun, Stamped, Tally.CountedRecords, Tally.FlowPart, Tally.IsLatest, Tally.Column;
    forall f | f in states[n].doc.flows ensures f.id != "" && f.lastSeen != "" {
      PartIsOf(ds, f.id);
      TalliedIsComplete(f, Tally.FlowPart(ds, f.id));
    }
  }

  lemma TalliedIsComplete(f: Flow, part: seq<R.Delivery>)
    requires Tally.FlowTallies(f, part)
    requires forall d :: d in part ==> FallbackId(d.msg.correlation, d.msg.id) == f.id
    requires forall d :: d in part ==> d.msg.id != "" && d.msg.timestamp != ""
    ensures f.id != "" && f.lastSeen != ""
  {
    var d := part[|part| - 1];
    assert d in part;
    hide Tally.IsLatest, Tally.Column, TrimSpace;
  }

  // ---------- crawls ----------

  ghost predicate CompleteTable<T(!new)>(table: seq<Keyset.Row<T>>) {
    forall r :: r in table ==> Keyset.Complete(r.key)
  }

  /** Over a table whose rows all have a time and an id, every crawl ends and lists what matches, once, in
      order, on max(1, ceil(n / limit)) pages. */
  lemma CompleteTableCrawls<T(!new)>(table: seq<Keyset.Row<T>>, matches: Keyset.Row<T> -> bool, limit: int)
    requires Keyset.DistinctIds(table) && CompleteTable(table)
    ensures var pages := Keyset.Crawl(table, matches, limit, Keyset.Blank);
            var rows := Keyset.RowsOf(pages);
            && pages != [] && pages[|pages| - 1].Page?
            && Keyset.IsPageCount(|pages|, |rows|, Keyset.NormalizeLimit(limit))
            && Strictly(rows, Keyset.RowBefore) && forall r :: r in rows <==> r in table && matches(r)
  {
    Keyset.CrawlOutcome(table, matches, limit);
    hide Keyset.Crawl, Keyset.Listing, Keyset.RowsOf, Keyset.IsPageCount,
         Keyset.FillsPages, Keyset.DistinctIds, Strictly;
    var all := Keyset.Listing(table, matches, Keyset.Blank);
    forall k | 0 < k < |all| && Keyset.FillsPages(k, Keyset.NormalizeLimit(limit))
      ensures Keyset.Complete(all[k - 1].key) {
      assert all[k - 1] in all;
    }
  }

  function MessageRows(messages: seq<Message>): seq<Keyset.Row<Message>> {
    seq(|messages|, i requires 0 <= i < |messages| =>
        Keyset.Row(Keyset.Key(messages[i].timestamp, messages[i].id), messages[i]))
  }

  /** MAIN RESULT.  In every reached store, following the cursors through the messages of a flow, or of any
      other choice, ends and lists every retained message that matches, once, newest first. */
  lemma MessagesCrawl(
      limit: int, states: seq<State>, events: seq<Event>, committed: seq<bool>, n: nat,
      matches: Keyset.Row<Message> -> bool, pageLimit: int)
    requires IsRun(limit, states, events, committed) && Stamped(events) && n < |states|
    ensures Keyset.DistinctIds(MessageRows(states[n].doc.messages))
    ensures var table := MessageRows(states[n].doc.messages);
            var pages := Keyset.Crawl(table, matches, pageLimit, Keyset.Blank);
            var rows := Keyset.RowsOf(pages);
            && pages != [] && pages[|pages| - 1].Page?
            && Keyset.IsPageCount(|pages|, |rows|, Keyset.NormalizeLimit(pageLimit))
            && Strictly(rows, Keyset.RowBefore) && forall r :: r in rows <==> r in table && matches(r)
  {
    hide *;
    AccountsBalance(limit, states, events, committed, n);
    SoundParts(states[n].doc);
    MessagesAreComplete(limit, states, events, committed, n);
    RowsAreComplete(states[n].doc);
    CompleteTableCrawls(MessageRows(states[n].doc.messages), matches, pageLimit);
  }

  lemma RowsAreComplete(doc: Snapshot)
    requires CompleteMessages(doc) && L.DistinctIds(doc.messages, MessageId)
    ensures CompleteTable(MessageRows(doc.messages)) && Keyset.DistinctIds(MessageRows(doc.messages))
  {
    var table := MessageRows(doc.messages);
    forall r | r in table ensures Keyset.Complete(r.key) {
      var i :| 0 <= i < |table| && table[i] == r;
      assert doc.messages[i] in doc.messages;
    }
    forall i, j | 0 <= i < j < |table| ensures table[i].key.id != table[j].key.id {
      assert MessageId(doc.messages[i]) != MessageId(doc.messages[j]);
    }
  }

  // ---------- flows, whole ----------

  function RowFor(f: Flow): Keyset.Row<FlowRow> {
    Keyset.Row(Keyset.Key(f.lastSeen, f.id), RowOf(f))
  }

  /** The flows on these pages, put together again from the participants of all flows. */
  function Listed(flows: seq<Flow>, rows: seq<Keyset.Row<FlowRow>>): seq<Flow> {
    seq(|rows|, i requires 0 <= i < |rows| =>
        Counted(WithParticipants(Bare(rows[i].item), Ordered(AllParticipants(flows)))))
  }

  lemma TableOf(flows: seq<Flow>)
    requires Insertable(flows)
    ensures Keyset.DistinctIds(Keyed(AllRows(flows)))
    ensures forall r :: r in Keyed(AllRows(flows)) <==> exists f :: f in flows && r == RowFor(f)
  {
    var table := Keyed(AllRows(flows));
    forall i | 0 <= i < |table| ensures table[i] == RowFor(flows[i]) {
    }
    forall i, j | 0 <= i < j < |table| ensures table[i].key.id != table[j].key.id {
      assert FlowId(flows[i]) != FlowId(flows[j]);
    }
    hide Keyed, AllRows, RowFor, Insertable;
    forall r ensures r in table <==> exists f :: f in flows && r == RowFor(f) {
      if r in table {
        var i :| 0 <= i < |table| && table[i] == r;
        assert flows[i] in flows;
      }
      if f :| f in flows && r == RowFor(f) {
        var i :| 0 <= i < |flows| && flows[i] == f;
        assert table[i] == r;
      }
    }
  }

  /** The `i`-th row listed is a matching flow, whole. */
  ghost predicate ListedIs(
      flows: seq<Flow>, rows: seq<Keyset.Row<FlowRow>>, matches: Keyset.Row<FlowRow> -> bool, i: nat, f: Flow)
  {
    && i < |rows| && f in flows && matches(RowFor(f)) && rows[i] == RowFor(f)
    && Listed(flows, rows)[i] == Regrouped(f)
  }

  ghost predicate SomeFlow(
      flows: seq<Flow>, rows: seq<Keyset.Row<FlowRow>>, matches: Keyset.Row<FlowRow> -> bool, i: nat)
  {
    exists f :: ListedIs(flows, rows, matches, i, f)
  }

  /** What is listed is each matching flow once, whole, its participants sorted. */
  ghost predicate ListsWhole(
      flows: seq<Flow>, rows: seq<Keyset.Row<FlowRow>>, matches: Keyset.Row<FlowRow> -> bool)
  {
    && L.DistinctIds(Listed(flows, rows), FlowId)
    && (forall f :: f in flows && matches(RowFor(f)) ==> Regrouped(f) in Listed(flows, rows))
    && (forall i: nat :: i < |rows| ==> SomeFlow(flows, rows, matches, i))
  }

  lemma RowIsListed(
      flows: seq<Flow>, rows: seq<Keyset.Row<FlowRow>>, matches: Keyset.Row<FlowRow> -> bool, i: nat)
    returns (f: Flow)
    requires Insertable(flows) && i < |rows|
    requires forall r :: r in rows <==> r in Keyed(AllRows(flows)) && matches(r)
    ensures ListedIs(flows, rows, matches, i, f)
    ensures |Listed(flows, rows)| == |rows| && Listed(flows, rows)[i].id == rows[i].key.id
  {
    TableOf(flows);
    hide Keyed, AllRows, Insertable, Regrouped, Counted, WithParticipants, Bare, Ordered, AllParticipants, RowOf;
    assert rows[i] in rows;
    f :| f in flows && rows[i] == RowFor(f);
    SplitRegroup(flows, f);
    RegroupedId(f);
  }

  lemma FlowIsListed(
      flows: seq<Flow>, rows: seq<Keyset.Row<FlowRow>>, matches: Keyset.Row<FlowRow> -> bool, f: Flow)
    requires Insertable(flows) && f in flows && matches(RowFor(f))
    requires forall r :: r in rows <==> r in Keyed(AllRows(flows)) && matches(r)
    ensures Regrouped(f) in Listed(flows, rows)
  {
    TableOf(flows);
    hide Keyed, AllRows, Insertable, Regrouped, Counted, WithParticipants, Bare, Ordered, AllParticipants, RowOf;
    assert RowFor(f) in rows;
    var i :| 0 <= i < |rows| && rows[i] == RowFor(f);
    SplitRegroup(flows, f);
    assert Listed(flows, rows)[i] == Regrouped(f);
  }

  lemma ListedApart(
      flows: seq<Flow>, rows: seq<Keyset.Row<FlowRow>>, matches: Keyset.Row<FlowRow> -> bool, i: nat, j: nat)
    requires Insertable(flows) && Strictly(rows, Keyset.RowBefore) && i < j < |rows|
    requires forall r :: r in rows <==> r in Keyed(AllRows(flows)) && matches(r)
    ensures |Listed(flows, rows)| == |rows| && FlowId(Listed(flows, rows)[i]) != FlowId(Listed(flows, rows)[j])
  {
    TableOf(flows);
    hide Keyed, AllRows, Insertable, Listed, Strictly, Keyset.DistinctIds, ListedIs;
    var f := RowIsListed(flows, rows, matches, i);
    var g := RowIsListed(flows, rows, matches, j);
    RowsApart(flows, rows, i, j);
  }

  lemma CrawlIsWhole(flows: seq<Flow>, rows: seq<Keyset.Row<FlowRow>>, matches: Keyset.Row<FlowRow> -> bool)
    requires Insertable(flows) && Strictly(rows, Keyset.RowBefore)
    requires forall r :: r in rows <==> r in Keyed(AllRows(flows)) && matches(r)
    ensures ListsWhole(flows, rows, matches)
  {
    ListedSize(flows, rows);
    hide Keyed, AllRows, Insertable, Listed, Strictly, ListedIs, Regrouped, RowFor;
    forall i: nat, j: nat | i < j < |rows| ensures FlowId(Listed(flows, rows)[i]) != FlowId(Listed(flows, rows)[j]) {
      ListedApart(flows, rows, matches, i, j);
    }
    forall f | f in flows && matches(RowFor(f)) ensures Regrouped(f) in Listed(flows, rows) {
      FlowIsListed(flows, rows, matches, f);
    }
    forall i: nat | i < |rows| ensures SomeFlow(flows, rows, matches, i) {
      var f := RowIsListed(flows, rows, matches, i);
    }
  }

  lemma ListedSize(flows: seq<Flow>, rows: seq<Keyset.Row<FlowRow>>)
    ensures |Listed(flows, rows)| == |rows|
  {
  }

  lemma RegroupedId(f: Flow)
    ensures Regrouped(f).id == f.id
  {
    hide SortStrings;
  }

  lemma RowsApart(flows: seq<Flow>, rows: seq<Keyset.Row<FlowRow>>, i: nat, j: nat)
    requires Strictly(rows, Keyset.RowBefore) && i < j < |rows|
    requires forall r :: r in rows ==> r in Keyed(AllRows(flows))
    requires Keyset.DistinctIds(Keyed(AllRows(flows)))
    ensures rows[i].key.id != rows[j].key.id
  {
    var table := Keyed(AllRows(flows));
    Keyset.KeyBeforeIsOrder();
    assert rows[i] in rows && rows[j] in rows && Keyset.RowBefore(rows[i], rows[j]);
    hide Keyed, AllRows, Keyset.KeyBefore;
    var k :| 0 <= k < |table| && table[k] == rows[i];
    var l :| 0 <= l < |table| && table[l] == rows[j];
    assert k != l;
  }

  /** MAIN RESULT.  In every reached store, following the cursors through the flows ends, and lists every
      flow that matches, once, newest first, on max(1, ceil(n / limit)) pages, each put together again
      whole from the two tables. */
  lemma FlowsCrawl(
      limit: int, states: seq<State>, events: seq<Event>, committed: seq<bool>, n: nat,
      matches: Keyset.Row<FlowRow> -> bool, pageLimit: int)
    requires IsRun(limit, states, events, committed) && Stamped(events) && n < |states|
    ensures Keyset.DistinctIds(Keyed(AllRows(states[n].doc.flows)))
    ensures var table := Keyed(AllRows(states[n].doc.flows));
            var pages := Keyset.Crawl(table, matches, pageLimit, Keyset.Blank);
            var rows := Keyset.RowsOf(pages);
            && pages != [] && pages[|pages| - 1].Page?
            && Keyset.IsPageCount(|pages|, |rows|, Keyset.NormalizeLimit(pageLimit))
            && Strictly(rows, Keyset.RowBefore) && ListsWhole(states[n].doc.flows, rows, matches)
  {
    hide *;
    ReachedIsInsertable(limit, states, events, committed, n);
    FlowsAreComplete(limit, states, events, committed, n);
    var flows := states[n].doc.flows;
    TableOf(flows);
    FlowRowsAreComplete(states[n].doc);
    CompleteTableCrawls(Keyed(AllRows(flows)), matches, pageLimit);
    CrawlIsWhole(flows, Keyset.RowsOf(Keyset.Crawl(Keyed(AllRows(flows)), matches, pageLimit, Keyset.Blank)), matches);
  }

  /** A flow of a reached store comes back from the two tables as it was, but for the order of its lists: no
      text field is lost as blank. */
  lemma ReachedComesBack(
      limit: int, states: seq<State>, events: seq<Event>, committed: seq<bool>, n: nat, f: Flow)
    requires IsRun(limit, states, events, committed) && n < |states| && f in states[n].doc.flows
    ensures Regrouped(f) ==
            f.(topics := SortStrings(f.topics), senders := SortStrings(f.senders),
               traceIds := SortStrings(f.traceIds), taskIds := SortStrings(f.taskIds))
  {
    RunShape(limit, states, events, committed);
    AccountsBalance(limit, states, events, committed, n);
    SoundParts(states[n].doc);
    Tally.SnapshotIsTally(limit, states, events, committed, n);
    var part := Tally.FlowPart(Tally.CountedRecords(states, events, committed, n), f.id);
    assert Tally.FlowTallies(f, part) && SoundFlow(f);
    LatestIsFilled(Tally.Column(part, Tally.StatusOf), f.latestStatus);
    LatestIsFilled(Tally.Column(part, Tally.PreviewOf), f.latestPreview);
    hide IsRun, SortStrings, EmptyToNull, Tally.FlowTallies, Tally.FlowPart, Tally.CountedRecords;
  }

  lemma LatestIsFilled(values: seq<string>, latest: string)
    requires Tally.IsLatest(values, latest)
    ensures EmptyToNull(latest) == latest
  {
    hide Blank;
  }

  lemma FlowRowsAreComplete(doc: Snapshot)
    requires CompleteFlows(doc) && Insertable(doc.flows)
    ensures CompleteTable(Keyed(AllRows(doc.flows)))
  {
    TableOf(doc.flows);
    hide Keyed, AllRows, Insertable, RowOf;
  }
}
