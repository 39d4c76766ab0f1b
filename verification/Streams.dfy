/** A stream of records with repeats against the stream of their first occurrences, both through an
    observer that nothing outside disturbs. */
module Streams {
  import opened GraphLogs
  import opened Ingest
  import opened Observer
  import opened Records
  import opened Redelivery
  import opened Retention
  import opened Lists
  import opened Text
  import C = GraphCommits
  import G = GraphWriter
  import H = GraphHistory
  import I = IngestRuns
  import O = GraphOutcome
  import P = GraphPlan
  import GR = GraphRows
  import W = GraphWedge

  // ---------- first occurrences ----------

  lemma FirstsLast(ds: seq<Delivery>, d: Delivery)
    ensures FirstDeliveries(ds + [d]) == FirstDeliveries(ds) + if d.msg.id in DeliveredIds(ds) then [] else [d]
  {
    hide DeliveredIds;
    assert (ds + [d])[..|ds|] == ds;
  }

  lemma {:induction false} FirstsOfFront(ds: seq<Delivery>, j: nat)
    requires j <= |ds|
    ensures FirstDeliveries(ds[..j]) <= FirstDeliveries(ds)
    decreases |ds|
  {
    if j == |ds| {
      assert ds[..j] == ds;
    } else {
      var front := ds[..|ds| - 1];
      FirstsLast(front, ds[|ds| - 1]);
      assert ds == front + [ds[|ds| - 1]] && front[..j] == ds[..j];
      FirstsOfFront(front, j);
    }
  }

  lemma {:induction false} FirstsAreFew(ds: seq<Delivery>)
    ensures |FirstDeliveries(ds)| == |DeliveredIds(ds)|
    decreases |ds|
  {
    if ds != [] {
      var front, d := ds[..|ds| - 1], ds[|ds| - 1];
      FirstsAreFew(front);
      FirstsLast(front, d);
      DeliveredMore(ds);
      assert ds == front + [d];
    }
  }

  /** First occurrences are their own first occurrences, up to any point. */
  lemma {:induction false} FirstsStand(ds: seq<Delivery>, k: nat)
    requires k <= |FirstDeliveries(ds)|
    ensures |DeliveredIds(FirstDeliveries(ds)[..k])| == k
    decreases |ds|
  {
    if ds != [] {
      var front, d := ds[..|ds| - 1], ds[|ds| - 1];
      FirstsLast(front, d);
      assert ds == front + [d];
      var firsts := FirstDeliveries(front);
      if k <= |firsts| {
        assert FirstDeliveries(ds)[..k] == firsts[..k];
        FirstsStand(front, k);
      } else {
        assert FirstDeliveries(ds)[..k] == firsts + [d] && firsts[..|firsts|] == firsts;
        FirstsStand(front, |firsts|);
        FirstsAreSame(front);
        DeliveredMore(firsts + [d]);
        assert (firsts + [d])[..|firsts|] == firsts;
      }
    } else {
      assert FirstDeliveries(ds)[..k] == [];
    }
  }

  /** The front of a stream with as many distinct records as a front of the first occurrences leaves
      the same tables. */
  lemma SameRecordsSameTables(ds: seq<Delivery>, j: nat, k: nat)
    requires j <= |ds| && k <= |FirstDeliveries(ds)|
    ensures DeliveredIds(ds[..j]) == DeliveredIds(FirstDeliveries(ds)[..k]) <==>
              DeliverAll(ds[..j]) == DeliverAll(FirstDeliveries(ds)[..k])
  {
    hide DeliverAll, FirstDeliveries, DeliveredIds;
    var firsts := FirstDeliveries(ds);
    DeliverAllKeys(ds[..j]);
    DeliverAllKeys(firsts[..k]);
    if DeliveredIds(ds[..j]) == DeliveredIds(firsts[..k]) {
      FirstsOfFront(ds, j);
      FirstsAreFew(ds[..j]);
      FirstsStand(ds, k);
      assert FirstDeliveries(ds[..j]) == firsts[..k];
      RepeatsAreInvisible(ds[..j]);
    }
  }

  // ---------- two logs ----------

  lemma LogTables(limit: int, log: IngestLog, now: I.State)
    requires IngestReached(limit, log, now)
    requires limit <= 0 || |DeliveredIds(Taken(log))| <= limit
    ensures ViewOf(now.doc) == DeliverAll(Taken(log))
  {
    I.RunShape(limit, log.states, log.events, log.committed);
    hide I.IsRun, ViewOf, DeliverAll, DeliveredIds, Deliveries;
    WholeRun(limit, log.states, log.events, log.committed);
  }

  lemma FrontFits(ds: seq<Delivery>, j: nat)
    requires j <= |ds|
    ensures |DeliveredIds(ds[..j])| <= |DeliveredIds(ds)|
  {
    assert DeliveredIds(ds[..j]) <= DeliveredIds(ds);
    SubsetSize(DeliveredIds(ds[..j]), DeliveredIds(ds));
  }

  /** MAIN RESULT.  Within the window, let a stream be taken up to its `j`-th delivery and the stream of
      its first occurrences up to its `k`-th: the snapshots are the same tables if and only if the same
      records were delivered up to there. */
  lemma EndsAgreeIff(
      limit: int, log: IngestLog, now: I.State, log': IngestLog, now': I.State, ds: seq<Delivery>, j: nat, k: nat)
    requires IngestReached(limit, log, now) && IngestReached(limit, log', now')
    requires j <= |ds| && k <= |FirstDeliveries(ds)| && (limit <= 0 || |DeliveredIds(ds)| <= limit)
    requires Taken(log) == ds[..j] && Taken(log') == FirstDeliveries(ds)[..k]
    ensures ViewOf(now.doc) == ViewOf(now'.doc) <==> DeliveredIds(ds[..j]) == DeliveredIds(FirstDeliveries(ds)[..k])
  {
    hide *;
    FrontFits(ds, j);
    FrontFits(FirstDeliveries(ds), k);
    FirstsAreSame(ds);
    LogTables(limit, log, now);
    LogTables(limit, log', now');
    SameRecordsSameTables(ds, j, k);
  }

  // ---------- an undisturbed stream ----------

  predicate Calm(w: World) {
    w.updateOk && w.graphOk && w.rereadOk && w.noteOk
  }

  /** The graph writes of a stream that go through, from the records alone: all of them until two clash,
      except those whose closing jams. */
  ghost function Graphed(records: seq<Record>, group: string): seq<H.Event> {
    if records == [] then []
    else
      var ws, d := Graphed(records[..|records| - 1], group), Decode(records[|records| - 1], group);
      ws + Written(ws, d)
  }

  ghost function Written(ws: seq<H.Event>, d: Decoded): seq<H.Event> {
    if d.Accepted? && !Clash(ws) && !Jam(ws, WriteOf(d)) then [WriteOf(d)] else []
  }

  /** How many records come before the first clash. */
  ghost function Stop(records: seq<Record>, group: string): (n: nat)
    ensures n <= |records|
  {
    if records == [] then 0
    else
      var front := records[..|records| - 1];
      var n := Stop(front, group);
      if n < |front| || Clash(Graphed(front, group)) then n else |records|
  }

  lemma GraphedMore(records: seq<Record>, rec: Record, group: string)
    ensures Graphed(records + [rec], group) ==
            Graphed(records, group) + Written(Graphed(records, group), Decode(rec, group))
    ensures Stop(records + [rec], group) ==
            if Stop(records, group) < |records| || Clash(Graphed(records, group)) then Stop(records, group)
            else |records| + 1
  {
    hide Written, Decode, Clash;
    assert (records + [rec])[..|records|] == records;
  }

  lemma {:induction false} GraphedFront(records: seq<Record>, group: string, j: nat)
    requires j <= |records| && Clash(Graphed(records[..j], group))
    ensures Graphed(records, group) == Graphed(records[..j], group)
    decreases |records|
  {
    hide Clash, Jam, Decode;
    if j == |records| {
      assert records[..j] == records;
    } else {
      var front := records[..|records| - 1];
      assert front[..j] == records[..j] && records == front + [records[|records| - 1]];
      GraphedFront(front, group, j);
      GraphedMore(front, records[|records| - 1], group);
    }
  }

  /** A stream goes on exactly until two writes clash. */
  lemma {:induction false} StopIsClash(records: seq<Record>, group: string, i: nat)
    requires i < |records|
    ensures i < Stop(records, group) <==> !Clash(Graphed(records[..i], group))
    decreases |records|
  {
    hide Clash, Graphed, Decode;
    var front, last := records[..|records| - 1], records[|records| - 1];
    assert records == front + [last] && front[..i] == records[..i];
    GraphedMore(front, last, group);
    if i < |front| {
      StopIsClash(front, group, i);
      if Clash(Graphed(records[..i], group)) {
        GraphedFront(front, group, i);
      }
    } else {
      assert front[..i] == front;
      if Stop(front, group) < |front| {
        StopIsClash(front, group, Stop(front, group));
        GraphedFront(front, group, Stop(front, group));
      }
    }
  }

  lemma StopIsEnd(records: seq<Record>, group: string)
    ensures Stop(records, group) < |records| ==> Clash(Graphed(records, group))
  {
    hide Clash, Graphed;
    var n := Stop(records, group);
    if n < |records| {
      StopIsClash(records, group, n);
      GraphedFront(records, group, n);
    }
  }

  // ---------- the store follows ----------

  lemma QuietTry(log: GraphLog, ws: seq<H.Event>, e: H.Event, diskOk: bool)
    requires Tracked(log, ws) && (e.Write? ==> !Went(Try(log, e, diskOk)))
    ensures Tracked(Try(log, e, diskOk), ws)
  {
    hide Reached, Places, W.CanCommit;
    var at := PlacesOf(log, ws);
    TryIsReached(log, e, diskOk);
    var goes := diskOk && W.CanCommit(Now(log), e);
    QuietPlaces(log, ws, at, e, goes, if goes then After(Now(log), e) else Now(log));
  }

  lemma WriteTry(log: GraphLog, ws: seq<H.Event>, e: H.Event)
    requires Tracked(log, ws) && e.Write? && e.msg.timestamp != "" && e.msg.id != "" && e.msg.id in Now(log).messages
    requires log.events != [] && |log.committed| == |log.events|
    requires log.committed[|log.events| - 1] && log.events[|log.events| - 1].Replace?
    ensures Went(Try(log, e, true)) <==> !Jam(ws, e)
    ensures Tracked(Try(log, e, true), if Jam(ws, e) then ws else ws + [e])
  {
    hide Reached, Places, W.CanCommit, Jam;
    var at := PlacesOf(log, ws);
    ReachedShape(log);
    C.WriteCommitsIff(Now(log), e);
    ClosingIsJam(log, ws, e);
    TryIsReached(log, e, true);
    if Jam(ws, e) {
      QuietTry(log, ws, e, true);
    } else {
      WritePlaces(log, ws, at, e, After(Now(log), e));
    }
  }

  lemma UpdateTry(log: GraphLog, ws: seq<H.Event>, messages: set<string>)
    requires Tracked(log, ws)
    ensures var tried := Try(log, H.Replace(messages), true);
            && Tracked(tried, ws) && Went(tried) == !Clash(ws)
            && Now(tried).messages == (if Clash(ws) then Now(log).messages else messages)
            && (Went(tried) ==> tried.events != [] && |tried.committed| == |tried.events|
                                && tried.committed[|tried.events| - 1] && tried.events[|tried.events| - 1].Replace?)
  {
    var tried := Try(log, H.Replace(messages), true);
    QuietTry(log, ws, H.Replace(messages), true);
    TryReplace(log, messages, true);
    TwinsAreClash(log, ws);
    assert tried.events != [] && tried.events[|tried.events| - 1].Replace?;
    hide Places, Clash, H.Twins, Try;
    ReachedShape(tried);
    hide Reached;
  }

  lemma SameAfterWrite(log: GraphLog, e: H.Event)
    requires e.Write?
    ensures Now(Try(log, e, true)).messages == Now(log).messages
  {
    hide G.PerformAll, G.Plan, W.CanCommit;
  }

  /** A calm record: what it does to the writes and to the retained ids. */
  lemma RecordTracked(log: GraphLog, ws: seq<H.Event>, kept: set<string>, d: Decoded, w: World)
    requires Tracked(log, ws) && Calm(w)
    requires d.Accepted? ==> d.msg.timestamp != "" && d.msg.id != "" && d.msg.id in kept
    ensures Tracked(RecordLog(log, kept, d, w), ws + Written(ws, d))
    ensures Now(RecordLog(log, kept, d, w)).messages == if d.Accepted? && !Clash(ws) then kept else Now(log).messages
  {
    hide *;
    RecordLogIs(log, kept, d, w);
    CalmMeans(w);
    WrittenMeans(ws, d);
    assert ws + [] == ws;
    var offered := OfferLog(log, kept, d, w);
    if d.Rejected? {
      RefusedUndecoded(0, log, {}, d, kept, w);
      NoteTracked(log, ws, w);
    } else {
      OfferSteps(log, kept, d, w);
      UpdateTry(log, ws, kept);
      var updated := Try(log, H.Replace(kept), true);
      if Clash(ws) {
        NoteTracked(updated, ws, w);
      } else {
        WriteTry(updated, ws, WriteOf(d)) by { WriteMeans(d); }
        WriteMeans(d);
        SameAfterWrite(updated, WriteOf(d));
        if Jam(ws, WriteOf(d)) {
          NoteTracked(offered, ws, w);
        }
      }
    }
  }

  lemma CalmMeans(w: World)
    ensures Calm(w) <==> w.updateOk && w.graphOk && w.rereadOk && w.noteOk
  {
  }

  lemma WriteMeans(d: Decoded)
    requires d.Accepted?
    ensures WriteOf(d) == H.Write(d.branch, d.msg, d.payload)
  {
  }

  lemma WrittenMeans(ws: seq<H.Event>, d: Decoded)
    ensures Written(ws, d) == if d.Accepted? && !Clash(ws) && !Jam(ws, WriteOf(d)) then [WriteOf(d)] else []
  {
  }

  lemma NoteTracked(log: GraphLog, ws: seq<H.Event>, w: World)
    requires Tracked(log, ws) && Calm(w)
    ensures Tracked(NoteLog(log, w), ws) && Now(NoteLog(log, w)).messages == Now(log).messages
  {
    hide Tracked, Clash, Try;
    UpdateTry(log, ws, Now(log).messages);
  }

  lemma NothingTracked()
    ensures Tracked(NO_LOG, []) && Now(NO_LOG).messages == {}
  {
    var at: seq<nat> := [];
    assert Places(NO_LOG, [], at);
  }

  ghost predicate FitsWindow(limit: int, records: seq<Record>, group: string) {
    limit <= 0 || |DeliveredIds(DeliveriesOf(records, group))| <= limit
  }

  lemma DeliveredByRecord(records: seq<Record>, rec: Record, group: string)
    ensures var ids := DeliveredIds(DeliveriesOf(records, group));
            DeliveredIds(DeliveriesOf(records + [rec], group)) ==
            var d := Decode(rec, group); if d.Accepted? then ids + {d.msg.id} else ids
  {
    hide Decode;
    var ds := DeliveriesOf(records, group);
    DeliveriesSplit(records, rec, group);
    var d := Decode(rec, group);
    if d.Accepted? {
      DeliveredMore(ds + [Delivery(d.msg, d.payload)]);
      assert (ds + [Delivery(d.msg, d.payload)])[..|ds|] == ds;
    } else {
      assert ds + [] == ds;
    }
  }

  lemma KeptAll(limit: int, ids: set<string>, d: Decoded, kept: set<string>, all: set<string>)
    requires Keeps(limit, ids, d, kept) && d.Accepted?
    requires ids + {d.msg.id} <= all && (limit <= 0 || |all| <= limit)
    ensures kept == ids + {d.msg.id}
  {
    if d.msg.id !in ids {
      var next := ids + {d.msg.id};
      SubsetSize(next, all);
      assert |next| == |ids| + 1;
      if kept != next {
        var x :| x in next && x !in kept;
        SubsetSize(kept, next - {x});
        assert false;
      }
    } else {
      assert ids + {d.msg.id} == ids;
    }
  }

  /** MAIN RESULT.  In a store that nothing disturbs, exactly the writes that the records themselves
      determine go through, and it takes exactly the records before the first clash. */
  lemma {:induction false} StreamTracked(
      limit: int, records: seq<Record>, kept: seq<set<string>>, worlds: seq<World>, group: string,
      answers: seq<Option<string>>)
    requires |kept| == |records| == |worlds| == |answers| && FitsWindow(limit, records, group)
    requires (forall r :: r in records ==> r.timestamp != "") && (forall w :: w in worlds ==> Calm(w))
    requires forall i :: 0 <= i < |records| ==> Handled(limit, NO_LOG, records, kept, worlds, group, i, answers[i])
    ensures Tracked(StreamLog(NO_LOG, records, kept, worlds, group), Graphed(records, group))
    ensures TakenOf(NO_LOG, records, kept, worlds, group) == DeliveriesOf(records[..Stop(records, group)], group)
    ensures Now(StreamLog(NO_LOG, records, kept, worlds, group)).messages <= DeliveredIds(DeliveriesOf(records, group))
    decreases |records|
  {
    hide *;
    if records == [] {
      NothingTracked();
      NothingStreamed(kept, worlds, group);
    } else {
      var n := |records| - 1;
      var front, rec, d, k, w := records[..n], records[n], Decode(records[n], group), kept[n], worlds[n];
      assert records == front + [rec] && kept == kept[..n] + [k] && worlds == worlds[..n] + [w];
      assert rec in records && w in worlds;
      HandledFront(limit, NO_LOG, records, kept, worlds, group, answers);
      WindowFront(limit, front, rec, group);
      StreamTracked(limit, front, kept[..n], worlds[..n], group, answers[..n]);
      var log, ws := StreamLog(NO_LOG, front, kept[..n], worlds[..n], group), Graphed(front, group);
      StreamMore(NO_LOG, front, kept[..n], worlds[..n], group, rec, k, w);
      DeliveredByRecord(front, rec, group);
      DecodeKeepsStamp(rec, group);
      if d.Accepted? {
        KeptAll(limit, Now(log).messages, d, k, DeliveredIds(DeliveriesOf(records, group))) by {
          WindowMeans(limit, records, group);
        }
      }
      RecordTracked(log, ws, k, d, w);
      GraphedMore(front, rec, group);
      TwinsAreClash(log, ws);
      TakenMatches(front, rec, group);
      CalmMeans(w);
    }
  }

  lemma NothingStreamed(kept: seq<set<string>>, worlds: seq<World>, group: string)
    requires kept == [] && worlds == []
    ensures StreamLog(NO_LOG, [], kept, worlds, group) == NO_LOG && TakenOf(NO_LOG, [], kept, worlds, group) == []
    ensures Graphed([], group) == [] && Stop([], group) == 0 && DeliveriesOf([][..0], group) == []
  {
  }

  lemma HandledFront(
      limit: int, log: GraphLog, records: seq<Record>, kept: seq<set<string>>, worlds: seq<World>, group: string,
      answers: seq<Option<string>>)
    requires |kept| == |records| == |worlds| == |answers| && records != []
    requires forall i :: 0 <= i < |records| ==> Handled(limit, log, records, kept, worlds, group, i, answers[i])
    ensures var n := |records| - 1;
            && (forall i :: 0 <= i < n ==>
                  Handled(limit, log, records[..n], kept[..n], worlds[..n], group, i, answers[..n][i]))
            && Keeps(limit, Now(StreamLog(log, records[..n], kept[..n], worlds[..n], group)).messages,
                     Decode(records[n], group), kept[n])
  {
    hide StreamLog, Keeps, AnswerOf, Decode;
    var n := |records| - 1;
    forall i | 0 <= i < n ensures Handled(limit, log, records[..n], kept[..n], worlds[..n], group, i, answers[..n][i]) {
      assert Handled(limit, log, records, kept, worlds, group, i, answers[i]);
      assert records[..n][..i] == records[..i] && kept[..n][..i] == kept[..i] && worlds[..n][..i] == worlds[..i];
    }
    assert Handled(limit, log, records, kept, worlds, group, n, answers[n]);
  }

  lemma WindowMeans(limit: int, records: seq<Record>, group: string)
    ensures FitsWindow(limit, records, group) <==> limit <= 0 || |DeliveredIds(DeliveriesOf(records, group))| <= limit
  {
  }

  lemma WindowFront(limit: int, front: seq<Record>, rec: Record, group: string)
    requires FitsWindow(limit, front + [rec], group)
    ensures FitsWindow(limit, front, group)
  {
    hide DeliveriesOf, DeliveredIds, Decode;
    DeliveredByRecord(front, rec, group);
    SubsetSize(DeliveredIds(DeliveriesOf(front, group)), DeliveredIds(DeliveriesOf(front + [rec], group)));
  }

  lemma TakenMatches(front: seq<Record>, rec: Record, group: string)
    ensures var records := front + [rec];
            DeliveriesOf(records[..Stop(records, group)], group) ==
            DeliveriesOf(front[..Stop(front, group)], group)
            + RecordTaken(Decode(rec, group), !Clash(Graphed(front, group)))
  {
    hide Decode, Clash, Graphed, DeliveriesOf, Stop;
    var records := front + [rec];
    GraphedMore(front, rec, group);
    StopIsEnd(front, group);
    DeliveriesSplit(front, rec, group);
    assert records[..Stop(front, group)] == front[..Stop(front, group)];
    assert records[..|records|] == records && front[..|front|] == front;
  }

  /** A fresh observer, and a stream of records of which the disk takes every transaction. */
  method Observe(limit: int, group: string, records: seq<Record>, worlds: seq<World>) returns (o: Observer)
    requires |worlds| == |records| && (forall r :: r in records ==> r.timestamp != "")
    requires (forall w :: w in worlds ==> Calm(w)) && FitsWindow(limit, records, group)
    ensures fresh(o) && fresh(o.graph) && o.Valid() && o.limit == limit
    ensures Tracked(o.graphLog, Graphed(records, group))
    ensures Taken(o.ingestLog) == DeliveriesOf(records[..Stop(records, group)], group)
  {
    o := new Observer(limit, group);
    hide *;
    var answers;
    ghost var kept;
    answers, kept := o.Consume(records, worlds);
    StreamTracked(limit, records, kept, worlds, group, answers);
    var taken := DeliveriesOf(records[..Stop(records, group)], group);
    assert [] + taken == taken;
  }

  // ---------- repeats ----------

  /** A record's topic, partition and offset name one record. */
  ghost predicate Faithful(records: seq<Record>) {
    forall a, b :: a in records && b in records && RecordId(a) == RecordId(b) ==> a == b
  }

  predicate Repeats(records: seq<Record>, rec: Record) {
    exists r :: r in records && RecordId(r) == RecordId(rec)
  }

  function Firsts(records: seq<Record>): seq<Record> {
    if records == [] then []
    else
      var front, rec := records[..|records| - 1], records[|records| - 1];
      Firsts(front) + if Repeats(front, rec) then [] else [rec]
  }

  function WritesOf(records: seq<Record>, group: string): seq<H.Event> {
    if records == [] then []
    else
      var d := Decode(records[|records| - 1], group);
      WritesOf(records[..|records| - 1], group) + if d.Accepted? then [WriteOf(d)] else []
  }

  /** Every graph write of these records goes through, and no two clash. */
  ghost predicate Smooth(records: seq<Record>, group: string) {
    Graphed(records, group) == WritesOf(records, group) && !Clash(WritesOf(records, group))
  }

  /** Record `i` repeats an earlier one, and its graph write goes through again: its closing jams on
      nothing that the first occurrences so far have left. */
  ghost predicate Returns(records: seq<Record>, group: string, i: nat) {
    && i < |records| && Repeats(records[..i], records[i])
    && var d := Decode(records[i], group);
       d.Accepted? && !Jam(WritesOf(Firsts(records[..i]), group), WriteOf(d))
  }

  /** After a repeat whose graph write goes through there are only repeats. */
  ghost predicate NothingNew(records: seq<Record>, group: string) {
    forall i: nat, k: nat :: Returns(records, group, i) && i < k < |records| && Decode(records[k], group).Accepted? ==>
      Repeats(records[..k], records[k])
  }

  lemma FirstsMore(records: seq<Record>, rec: Record)
    ensures Firsts(records + [rec]) == Firsts(records) + if Repeats(records, rec) then [] else [rec]
  {
    hide RecordId;
    assert (records + [rec])[..|records|] == records;
  }

  lemma WritesMore(records: seq<Record>, rec: Record, group: string)
    ensures WritesOf(records + [rec], group) ==
            WritesOf(records, group) + var d := Decode(rec, group); if d.Accepted? then [WriteOf(d)] else []
  {
    hide Decode;
    assert (records + [rec])[..|records|] == records;
  }

  lemma NoOther(front: seq<Record>, last: Record)
    requires Faithful(front + [last]) && last !in front
    ensures !Repeats(front, last)
  {
    hide RecordId;
    forall r | r in front ensures RecordId(r) != RecordId(last) {
      assert r in front + [last] && last in front + [last];
    }
  }

  lemma {:induction false} FirstsHold(records: seq<Record>, rec: Record)
    requires Faithful(records) && rec in records
    ensures rec in Firsts(records)
    decreases |records|
  {
    hide RecordId;
    var front, last := records[..|records| - 1], records[|records| - 1];
    assert records == front + [last];
    FirstsMore(front, last);
    if rec in front {
      FirstsHold(front, rec);
    } else {
      NoOther(front, last);
    }
  }

  lemma {:induction false} GraphedIsFew(records: seq<Record>, group: string)
    ensures |Graphed(records, group)| <= |WritesOf(records, group)|
    decreases |records|
  {
    hide Clash, Jam, Decode;
    if records != [] {
      var front, last := records[..|records| - 1], records[|records| - 1];
      assert records == front + [last];
      GraphedIsFew(front, group);
      GraphedMore(front, last, group);
      WritesMore(front, last, group);
    }
  }

  lemma SmoothFront(records: seq<Record>, rec: Record, group: string)
    requires Smooth(records + [rec], group)
    ensures Smooth(records, group)
    ensures Written(WritesOf(records, group), Decode(rec, group)) ==
            var d := Decode(rec, group); if d.Accepted? then [WriteOf(d)] else []
  {
    hide Jam, Decode, Clash, Graphed, WritesOf;
    GraphedIsFew(records, group);
    GraphedMore(records, rec, group);
    WritesMore(records, rec, group);
    var ws, d := Graphed(records, group), Decode(rec, group);
    if d.Accepted? {
      assert |ws + Written(ws, d)| == |WritesOf(records, group)| + 1;
      assert Written(ws, d) == [WriteOf(d)];
      assert (ws + [WriteOf(d)])[..|ws|] == ws;
      assert (WritesOf(records, group) + [WriteOf(d)])[..|ws|] == WritesOf(records, group);
    } else {
      assert ws + [] == ws && WritesOf(records, group) + [] == WritesOf(records, group);
    }
  }

  lemma ReturnInside(records: seq<Record>, group: string)
    ensures forall i: nat :: Returns(records, group, i) ==> i < |records|
  {
    hide Repeats, Decode, Jam, WritesOf, Firsts;
  }

  lemma ReturnsFront(records: seq<Record>, group: string, i: nat)
    requires i <= |records|
    ensures forall j: nat :: j < i ==> (Returns(records[..i], group, j) <==> Returns(records, group, j))
  {
    hide Jam, Decode, WritesOf, RecordId, Firsts, Repeats;
    forall j: nat | j < i ensures Returns(records[..i], group, j) <==> Returns(records, group, j) {
      assert records[..i][..j] == records[..j] && records[..i][j] == records[j];
    }
  }

  /** Up to the first return, the stream with repeats writes what its first occurrences write. */
  lemma {:induction false} SameWrites(records: seq<Record>, group: string)
    requires Smooth(Firsts(records), group) && forall i: nat :: !Returns(records, group, i)
    ensures Graphed(records, group) == WritesOf(Firsts(records), group)
    decreases |records|
  {
    hide *;
    if records != [] {
      var n := |records| - 1;
      var front, rec, d := records[..n], records[n], Decode(records[n], group);
      assert records == front + [rec];
      FirstsMore(front, rec);
      GraphedMore(front, rec, group);
      ReturnsFront(records, group, n);
      ReturnInside(front, group);
      WrittenMeans(Graphed(front, group), d);
      if Repeats(front, rec) {
        assert Firsts(front) + [] == Firsts(front);
        SameWrites(front, group);
        ReturnsMeans(records, group, n);
        assert Graphed(front, group) + [] == Graphed(front, group);
      } else {
        SmoothFront(Firsts(front), rec, group);
        WritesMore(Firsts(front), rec, group);
        SameWrites(front, group);
      }
    } else {
      NoWrites(group);
      NoFirsts();
    }
  }

  lemma NoFirsts()
    ensures Firsts([]) == []
  {
  }

  lemma {:induction false} SmoothAt(records: seq<Record>, group: string, i: nat)
    requires Smooth(Firsts(records), group) && i <= |records|
    ensures Smooth(Firsts(records[..i]), group)
    decreases |records|
  {
    hide Smooth, RecordId, Repeats, Firsts;
    if i == |records| {
      assert records[..i] == records;
    } else {
      var front, last := records[..|records| - 1], records[|records| - 1];
      assert records == front + [last] && front[..i] == records[..i];
      FirstsMore(front, last);
      if Repeats(front, last) {
        assert Firsts(front) + [] == Firsts(front);
      } else {
        SmoothFront(Firsts(front), last, group);
      }
      SmoothAt(front, group, i);
    }
  }

  lemma {:induction false} WriteIn(records: seq<Record>, group: string, rec: Record)
    requires rec in records && Decode(rec, group).Accepted?
    ensures WriteOf(Decode(rec, group)) in WritesOf(records, group)
    decreases |records|
  {
    hide Decode;
    var front, last := records[..|records| - 1], records[|records| - 1];
    assert records == front + [last];
    WritesMore(front, last, group);
    if rec in front {
      WriteIn(front, group, rec);
    }
  }

  lemma {:induction false} LastingStaysOpen(ws: seq<H.Event>, t: O.Shape, k: nat)
    requires t.kind !in G.TASK_EDGES
    ensures ClosedBy(ws, t, k) == None
    decreases |ws|
  {
    if k < |ws| {
      LastingStaysOpen(ws[..|ws| - 1], t, k);
    }
  }

  /** A write that comes again clashes with itself. */
  lemma AgainClashes(ws: seq<H.Event>, e: H.Event)
    requires e in ws && e.Write?
    ensures Clash(ws + [e])
  {
    var k :| 0 <= k < |ws| && ws[k] == e;
    var more, t := ws + [e], P.Mention(e.msg);
    P.MentionIsLasting(e);
    LastingStaysOpen(more, t, k);
    LastingStaysOpen(more, t, |ws|);
    hide ClosedBy, O.JoinsOf, P.Mention;
    assert more[k] == e && more[|ws|] == e;
    assert Asks(more, k, t) && Asks(more, |ws|, t);
  }

  /** Just after the first return the store has stopped. */
  lemma ReturnStops(records: seq<Record>, group: string, i: nat)
    requires Faithful(records) && Smooth(Firsts(records), group)
    requires Returns(records, group, i) && forall j: nat :: j < i ==> !Returns(records, group, j)
    ensures Stop(records, group) == i + 1
  {
    hide Jam, Decode, Clash, Graphed, WritesOf, RecordId, Firsts, Stop;
    var front, rec := records[..i], records[i];
    var ws, e := WritesOf(Firsts(front), group), WriteOf(Decode(rec, group));
    SmoothAt(records, group, i);
    ReturnsFront(records, group, i);
    SameWrites(front, group);
    assert rec in front by {
      var r :| r in front && RecordId(r) == RecordId(rec);
      assert r in records && rec in records;
    }
    FirstsHold(front, rec);
    WriteIn(Firsts(front), group, rec);
    AgainClashes(ws, e);
    assert records[..i + 1] == front + [rec];
    GraphedMore(front, rec, group);
    StopIsClash(records, group, i);
    if i + 1 < |records| {
      StopIsClash(records, group, i + 1);
    }
  }

  lemma NoReturnGoesOn(records: seq<Record>, group: string)
    requires Smooth(Firsts(records), group) && forall i: nat :: !Returns(records, group, i)
    ensures Stop(records, group) == |records|
  {
    hide Jam, Clash, Graphed, WritesOf, Firsts, Stop, Returns;
    SameWrites(records, group);
    StopIsEnd(records, group);
  }

  lemma LeastReturn(records: seq<Record>, group: string, i: nat) returns (least: nat)
    requires Returns(records, group, i)
    ensures least <= i && Returns(records, group, least) && forall j: nat :: j < least ==> !Returns(records, group, j)
    decreases i
  {
    hide Returns;
    if j: nat :| j < i && Returns(records, group, j) {
      least := LeastReturn(records, group, j);
    } else {
      least := i;
    }
  }

  // ---------- what the stream and its first occurrences leave ----------

  lemma {:induction false} DeliveredAre(records: seq<Record>, group: string, id: string)
    ensures id in DeliveredIds(DeliveriesOf(records, group)) <==>
            exists r :: r in records && Decode(r, group).Accepted? && RecordId(r) == id
    decreases |records|
  {
    hide RecordId, Decode, DeliveredIds;
    if records == [] {
      NothingDelivered(group);
    } else {
      var front, last := records[..|records| - 1], records[|records| - 1];
      assert records == front + [last];
      DeliveredAre(front, group, id);
      DeliveredByRecord(front, last, group);
      DecodedId(last, group);
    }
  }

  lemma NothingDelivered(group: string)
    ensures DeliveredIds(DeliveriesOf([], group)) == {}
  {
  }

  lemma DecodedId(rec: Record, group: string)
    ensures Decode(rec, group).Accepted? ==> Decode(rec, group).msg.id == RecordId(rec)
  {
    hide RecordId, FirstNonEmpty, FallbackId;
  }

  lemma {:induction false} FirstsAreFirst(records: seq<Record>, group: string)
    requires Faithful(records)
    ensures DeliveriesOf(Firsts(records), group) == FirstDeliveries(DeliveriesOf(records, group))
    decreases |records|
  {
    hide RecordId, Decode, DeliveredIds, Repeats;
    if records != [] {
      var front, last := records[..|records| - 1], records[|records| - 1];
      assert records == front + [last];
      FirstsAreFirst(front, group);
      FirstsMore(front, last);
      DeliveriesSplit(front, last, group);
      DeliveriesSplit(Firsts(front), last, group);
      var ds, d := DeliveriesOf(front, group), Decode(last, group);
      assert ds + [] == ds && Firsts(front) + [] == Firsts(front);
      assert FirstDeliveries(ds) + [] == FirstDeliveries(ds);
      if d.Accepted? {
        FirstsLast(ds, Delivery(d.msg, d.payload));
        RepeatIsDelivered(front, last, group);
      }
      hide FirstDeliveries, DeliveriesOf, Firsts;
    }
  }

  lemma RepeatIsDelivered(front: seq<Record>, rec: Record, group: string)
    requires Faithful(front + [rec]) && Decode(rec, group).Accepted?
    ensures Repeats(front, rec) <==> Decode(rec, group).msg.id in DeliveredIds(DeliveriesOf(front, group))
  {
    hide RecordId, Decode, DeliveredIds, DeliveriesOf;
    DecodedId(rec, group);
    DeliveredAre(front, group, RecordId(rec));
    if Repeats(front, rec) {
      var r :| r in front && RecordId(r) == RecordId(rec);
      assert r in front + [rec] && rec in front + [rec];
      assert r == rec;
    }
  }

  lemma {:induction false} OldById(records: seq<Record>, group: string, i: nat, k: nat)
    requires Faithful(records) && NothingNew(records, group) && Returns(records, group, i)
    requires k < |records| && Decode(records[k], group).Accepted?
    ensures RecordId(records[k]) in DeliveredIds(DeliveriesOf(records[..i + 1], group))
    decreases k
  {
    hide RecordId, Decode, DeliveredIds, DeliveriesOf, Jam, WritesOf, Firsts;
    DeliveredAre(records[..i + 1], group, RecordId(records[k]));
    if k <= i {
      assert records[k] in records[..i + 1];
    } else {
      var r :| r in records[..k] && RecordId(r) == RecordId(records[k]);
      var j :| 0 <= j < k && records[j] == r;
      assert r in records && records[k] in records;
      OldById(records, group, i, j);
    }
  }

  /** The part before the first return holds every record exactly if nothing new follows a return. */
  lemma NothingNewIff(records: seq<Record>, group: string, i: nat)
    requires Faithful(records) && Returns(records, group, i) && forall j: nat :: j < i ==> !Returns(records, group, j)
    ensures i < |records|
    ensures DeliveredIds(DeliveriesOf(records[..i + 1], group)) == DeliveredIds(DeliveriesOf(records, group)) <==>
            NothingNew(records, group)
  {
    hide RecordId, Decode, DeliveredIds, DeliveriesOf, Returns;
    ReturnInside(records, group);
    var some, all := DeliveredIds(DeliveriesOf(records[..i + 1], group)), DeliveredIds(DeliveriesOf(records, group));
    if NothingNew(records, group) {
      forall id ensures id in some <==> id in all {
        DeliveredAre(records[..i + 1], group, id);
        DeliveredAre(records, group, id);
        if id in all {
          var r :| r in records && Decode(r, group).Accepted? && RecordId(r) == id;
          var k :| 0 <= k < |records| && records[k] == r;
          OldById(records, group, i, k);
        }
      }
    }
    if some == all {
      forall j: nat, k: nat | Returns(records, group, j) && j < k < |records| && Decode(records[k], group).Accepted?
        ensures Repeats(records[..k], records[k])
      {
        var id := RecordId(records[k]);
        DeliveredAre(records, group, id);
        DeliveredAre(records[..i + 1], group, id);
        assert records[k] in records;
        var r :| r in records[..i + 1] && Decode(r, group).Accepted? && RecordId(r) == id;
        assert records[..i + 1] <= records[..k];
        assert r in records[..k];
      }
    }
  }

  /** The same records, repeats aside. */
  ghost predicate SameRecords(a: seq<Record>, b: seq<Record>, group: string) {
    DeliveredIds(DeliveriesOf(a, group)) == DeliveredIds(DeliveriesOf(b, group))
  }

  /** MAIN RESULT.  If every graph write of the first occurrences goes through, a stream with repeats is
      taken as far as its first occurrences if and only if nothing new follows a repeat whose graph write
      goes through again. */
  lemma RepeatsStopTheStore(records: seq<Record>, group: string)
    requires Faithful(records) && Smooth(Firsts(records), group)
    ensures var firsts := Firsts(records);
            && Stop(firsts, group) == |firsts|
            && (SameRecords(records[..Stop(records, group)], firsts, group) <==> NothingNew(records, group))
  {
    hide *;
    var firsts := Firsts(records);
    SmoothGoesOn(firsts, group);
    FirstsAreFirst(records, group);
    FirstsAreSame(DeliveriesOf(records, group));
    if i: nat :| Returns(records, group, i) {
      var least := LeastReturn(records, group, i);
      ReturnStops(records, group, least);
      NothingNewIff(records, group, least);
      SameMeans(records[..least + 1], firsts, group);
    } else {
      NoReturnGoesOn(records, group);
      NoReturnNothingNew(records, group);
      assert records[..|records|] == records;
      SameMeans(records, firsts, group);
    }
  }

  lemma NoReturnNothingNew(records: seq<Record>, group: string)
    requires forall i: nat :: !Returns(records, group, i)
    ensures NothingNew(records, group)
  {
    hide Returns;
  }

  lemma SmoothGoesOn(records: seq<Record>, group: string)
    requires Smooth(records, group)
    ensures Stop(records, group) == |records|
  {
    hide Clash, Graphed, WritesOf;
    StopIsEnd(records, group);
  }

  lemma SameMeans(a: seq<Record>, b: seq<Record>, group: string)
    ensures SameRecords(a, b, group) <==> DeliveredIds(DeliveriesOf(a, group)) == DeliveredIds(DeliveriesOf(b, group))
  {
  }

  // ---------- two observers ----------

  lemma {:induction false} DeliveriesOfFront(records: seq<Record>, group: string, j: nat)
    requires j <= |records|
    ensures DeliveriesOf(records[..j], group) <= DeliveriesOf(records, group)
    decreases |records|
  {
    hide Decode;
    if j == |records| {
      assert records[..j] == records;
    } else {
      var front := records[..|records| - 1];
      assert front[..j] == records[..j];
      DeliveriesOfFront(front, group, j);
    }
  }

  lemma AgreeOnStreams(
      limit: int, group: string, log: IngestLog, now: I.State, records: seq<Record>, j: nat,
      log': IngestLog, now': I.State, firsts: seq<Record>, k: nat)
    requires IngestReached(limit, log, now) && IngestReached(limit, log', now') && j <= |records| && k <= |firsts|
    requires Taken(log) == DeliveriesOf(records[..j], group) && Taken(log') == DeliveriesOf(firsts[..k], group)
    requires DeliveriesOf(firsts, group) == FirstDeliveries(DeliveriesOf(records, group))
    requires FitsWindow(limit, records, group)
    ensures ViewOf(now.doc) == ViewOf(now'.doc) <==> SameRecords(records[..j], firsts[..k], group)
  {
    hide *;
    var ds := DeliveriesOf(records, group);
    DeliveriesOfFront(records, group, j);
    DeliveriesOfFront(firsts, group, k);
    var m, n := |Taken(log)|, |Taken(log')|;
    assert ds[..m] == Taken(log) && FirstDeliveries(ds)[..n] == Taken(log');
    WindowMeans(limit, records, group);
    EndsAgreeIff(limit, log, now, log', now', ds, m, n);
    SameMeans(records[..j], firsts[..k], group);
  }

  /** MAIN RESULT.  Exactly once, and when not.  Give one observer a stream with repeats and another one
      the first occurrences, let every transaction be taken that can be, and let the distinct records fit
      into the window.  Each takes its records up to the first clash.  Both end with the same tables if and
      only if the same records came before that; if every graph write of the first occurrences goes
      through, if and only if nothing new follows a repeat whose graph write goes through again. */
  method StreamAndFirsts(
      limit: int, group: string, records: seq<Record>, worlds: seq<World>, firsts: seq<Record>, worlds': seq<World>)
    returns (o: Observer, p: Observer)
    requires |worlds| == |records| && (forall r :: r in records ==> r.timestamp != "")
    requires |worlds'| == |firsts| && (forall r :: r in firsts ==> r.timestamp != "")
    requires forall w :: w in worlds + worlds' ==> Calm(w)
    requires DeliveriesOf(firsts, group) == FirstDeliveries(DeliveriesOf(records, group))
    requires FitsWindow(limit, records, group)
    ensures fresh(o) && fresh(p) && o.Valid() && p.Valid()
    ensures Tracked(o.graphLog, Graphed(records, group)) && Tracked(p.graphLog, Graphed(firsts, group))
    ensures Taken(o.ingestLog) == DeliveriesOf(records[..Stop(records, group)], group)
    ensures Taken(p.ingestLog) == DeliveriesOf(firsts[..Stop(firsts, group)], group)
    ensures ViewOf(o.doc) == ViewOf(p.doc) <==>
            SameRecords(records[..Stop(records, group)], firsts[..Stop(firsts, group)], group)
    ensures Faithful(records) && firsts == Firsts(records) && Smooth(firsts, group) ==>
              (ViewOf(o.doc) == ViewOf(p.doc) <==> NothingNew(records, group))
  {
    hide *;
    FirstsFit(limit, records, firsts, group);
    o := Observe(limit, group, records, worlds);
    p := Observe(limit, group, firsts, worlds');
    ObserverReached(o);
    ObserverReached(p);
    AgreeOnStreams(limit, group, o.ingestLog, o.IngestState(), records, Stop(records, group),
                   p.ingestLog, p.IngestState(), firsts, Stop(firsts, group));
    if Faithful(records) && firsts == Firsts(records) && Smooth(firsts, group) {
      RepeatsStopTheStore(records, group);
      assert firsts[..|firsts|] == firsts;
    }
  }

  lemma FirstsFit(limit: int, records: seq<Record>, firsts: seq<Record>, group: string)
    requires DeliveriesOf(firsts, group) == FirstDeliveries(DeliveriesOf(records, group))
    requires FitsWindow(limit, records, group)
    ensures FitsWindow(limit, firsts, group)
  {
    hide DeliveriesOf, FirstDeliveries, DeliveredIds;
    FirstsAreSame(DeliveriesOf(records, group));
  }

  lemma ObserverReached(o: Observer)
    requires o.Valid()
    ensures IngestReached(o.limit, o.ingestLog, o.IngestState()) && o.IngestState().doc == o.doc
  {
    hide I.IsRun, Reached;
  }

  // ---------- a record lost for good ----------

  /** The write closes nothing. */
  ghost predicate ClosesNothing(e: H.Event) {
    forall t: O.Shape :: !GR.Closes(e, t)
  }

  lemma OpenNeverJams(ws: seq<H.Event>, e: H.Event)
    requires e.Write? && ClosesNothing(e)
    ensures !Jam(ws, e)
  {
    hide GR.Closes, Asks, ClosedBy;
  }

  lemma TwoApart(e: H.Event, f: H.Event)
    requires e.Write? && f.Write? && O.JoinsOf(e) !! O.JoinsOf(f)
    ensures !Clash([]) && !Clash([e]) && !Clash([e, f])
  {
    hide ClosedBy, O.JoinsOf;
  }

  ghost predicate Apart(a: Decoded, b: Decoded) {
    && a.Accepted? && b.Accepted? && ClosesNothing(WriteOf(a)) && ClosesNothing(WriteOf(b))
    && O.JoinsOf(WriteOf(a)) !! O.JoinsOf(WriteOf(b))
  }

  lemma ApartWrites(a: Decoded, b: Decoded)
    requires Apart(a, b)
    ensures var e, f := WriteOf(a), WriteOf(b);
            && Written([], a) == [e] && Written([e], b) == [f] && !Clash([e, f])
            && !Jam([e], e)
  {
    var e, f := WriteOf(a), WriteOf(b);
    OpenNeverJams([], e);
    OpenNeverJams([e], e);
    OpenNeverJams([e], f);
    TwoApart(e, f);
    hide Clash, Jam, ClosesNothing, O.JoinsOf;
  }

  lemma PairIsSmooth(a: Record, b: Record, group: string)
    requires Apart(Decode(a, group), Decode(b, group))
    ensures Smooth([a, b], group) && WritesOf([a], group) == [WriteOf(Decode(a, group))]
  {
    hide *;
    ApartWrites(Decode(a, group), Decode(b, group));
    ApartMeans(Decode(a, group), Decode(b, group));
    assert [a, b] == [a] + [b] && [a] == [] + [a];
    GraphedMore([], a, group);
    GraphedMore([a], b, group);
    WritesMore([], a, group);
    WritesMore([a], b, group);
    NoWrites(group);
    var e, f := WriteOf(Decode(a, group)), WriteOf(Decode(b, group));
    assert Graphed([a], group) == [e] == WritesOf([a], group);
    assert Graphed([a, b], group) == [e, f] == WritesOf([a, b], group);
    SmoothMeans([a, b], group);
  }

  lemma NoWrites(group: string)
    ensures Graphed([], group) == [] == WritesOf([], group)
  {
  }

  lemma SmoothMeans(records: seq<Record>, group: string)
    ensures Smooth(records, group) <==>
            Graphed(records, group) == WritesOf(records, group) && !Clash(WritesOf(records, group))
  {
    hide Graphed, WritesOf, Clash;
  }

  lemma ReturnsMeans(records: seq<Record>, group: string, i: nat)
    ensures Returns(records, group, i) <==>
            && i < |records| && Repeats(records[..i], records[i]) && Decode(records[i], group).Accepted?
            && !Jam(WritesOf(Firsts(records[..i]), group), WriteOf(Decode(records[i], group)))
  {
    hide Repeats, Decode, Jam, WritesOf, Firsts;
  }

  lemma SomethingNew(records: seq<Record>, group: string, i: nat, k: nat)
    requires Returns(records, group, i) && i < k < |records|
    requires Decode(records[k], group).Accepted? && !Repeats(records[..k], records[k])
    ensures !NothingNew(records, group)
  {
    hide Repeats, Decode, Returns;
  }

  /** For any two records that close nothing and ask for no common edge: delivered first, first again,
      second, the second is lost. */
  lemma NewRecordIsLost(a: Record, b: Record, group: string)
    requires RecordId(a) != RecordId(b) && Apart(Decode(a, group), Decode(b, group))
    ensures var records := [a, a, b];
            && Faithful(records) && Firsts(records) == [a, b] && Smooth([a, b], group)
            && Stop(records, group) == 2 && !NothingNew(records, group)
  {
    hide *;
    var records := [a, a, b];
    ThreeAre(a, b);
    PairIsSmooth(a, b, group);
    ApartWrites(Decode(a, group), Decode(b, group));
    ApartMeans(Decode(a, group), Decode(b, group));
    assert records[..1] == [a] && records[..0] == [] && records[..2] == [a, a];
    ReturnsMeans(records, group, 1);
    ReturnsMeans(records, group, 0);
    ReturnStops(records, group, 1);
    SomethingNew(records, group, 1, 2);
  }

  lemma ApartMeans(a: Decoded, b: Decoded)
    requires Apart(a, b)
    ensures a.Accepted? && b.Accepted?
  {
  }

  lemma ThreeAre(a: Record, b: Record)
    requires RecordId(a) != RecordId(b)
    ensures Faithful([a, a, b]) && Firsts([a, a, b]) == [a, b] && Firsts([a]) == [a]
    ensures Repeats([a], a) && !Repeats([], a) && !Repeats([a, a], b) && !Repeats([a], b)
  {
    hide RecordId;
    FirstsMore([], a);
    FirstsMore([a], a);
    FirstsMore([a, a], b);
    assert [] + [a] == [a] && [a] + [a] == [a, a] && [a, a] + [b] == [a, a, b] && a in [a];
  }

  // ---------- accepted and rejected ----------

  /** For any two records: with a window of one, an older record that comes after the newer one is accepted
      and counted, and then no graph can take its write. */
  lemma AcceptedAndRejected(older: Message, newer: Message, branch: string, payload: Payload)
    returns (states: seq<I.State>, events: seq<I.Event>)
    requires older.id != newer.id && Less(older.timestamp, newer.timestamp)
    ensures events == [I.Accept(newer, NO_PAYLOAD), I.Accept(older, NO_PAYLOAD)]
    ensures |states| == 3 && I.IsRun(1, states, events, [true, true]) && states[2].doc.health.accepted == 2
    ensures var ids := Ids(states[2].doc.messages, MessageId);
            forall g :: H.Sound(g, ids) ==> !W.CanCommit(H.State(g, ids), H.Write(branch, older, payload))
  {
    hide *;
    states, events := DroppedAtOnce(older, newer);
    var ids := Ids(states[2].doc.messages, MessageId);
    assert older.id !in ids by { OneId(newer); }
    forall g | H.Sound(g, ids) ensures !W.CanCommit(H.State(g, ids), H.Write(branch, older, payload)) {
      C.UnretainedIsRefused(H.State(g, ids), H.Write(branch, older, payload));
    }
  }

  lemma OneId(m: Message)
    ensures Ids([m], MessageId) == {m.id}
  {
    assert [m][0] in [m];
  }
}
