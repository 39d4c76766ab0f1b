/** One replay: it polls a client of its own and handles what comes until enough records were
    handled, nothing came three times in a row, it is cancelled, or the client fails. */
module Replay {
  import opened Ingest
  import opened Lists
  import opened Observer
  import opened Ordering
  import H = GraphHistory
  import I = IngestRuns
  import opened Records

  datatype Fetch = Fatal(canceled: bool, error: string) | Batch(records: seq<Record>)

  /** One turn of the loop: whether the replay was cancelled before it, and what the poll brings. */
  datatype Turn = Turn(canceled: bool, fetch: Fetch)

  datatype Finish = Finish(count: nat, status: string, error: string)

  function Limit(configured: int): (limit: nat)
    ensures limit > 0
  {
    if configured <= 0 then 5000 else configured
  }

  // ---------- the outcome, stated without the loop ----------

  function BatchOf(t: Turn): seq<Record> {
    if !t.canceled && t.fetch.Batch? then t.fetch.records else []
  }

  /** What the first `n` turns bring. */
  function Gathered(turns: nat -> Turn, n: nat): seq<Record> {
    if n == 0 then [] else Gathered(turns, n - 1) + BatchOf(turns(n - 1))
  }

  /** The last three turns brought nothing. */
  predicate Quiet(turns: nat -> Turn, n: nat) {
    n >= 3 && forall k: nat | n - 3 <= k < n :: BatchOf(turns(k)) == []
  }

  /** The first `n` turns bring batches, and none of them is the last one. */
  ghost predicate GoesOn(limit: nat, turns: nat -> Turn, n: nat) {
    forall k: nat :: k < n ==>
      !turns(k).canceled && turns(k).fetch.Batch? && |Gathered(turns, k)| < limit && !Quiet(turns, k)
  }

  /** The replay ends after `n` batches, with this report. */
  ghost predicate EndsAfter(limit: nat, turns: nat -> Turn, n: nat, f: Finish) {
    && GoesOn(limit, turns, n)
    && if |Gathered(turns, n)| >= limit then f == Finish(limit, "completed", "")
       else if Quiet(turns, n) then f == Finish(|Gathered(turns, n)|, "completed", "")
       else if turns(n).canceled then f == Finish(|Gathered(turns, n)|, "canceled", "")
       else turns(n).fetch.Fatal? &&
            f == Finish(|Gathered(turns, n)|, if turns(n).fetch.canceled then "canceled" else "failed",
                        if turns(n).fetch.canceled then "" else turns(n).fetch.error)
  }

  lemma EndIsUnique(limit: nat, turns: nat -> Turn, n: nat, f: Finish, n': nat, f': Finish)
    requires EndsAfter(limit, turns, n, f) && EndsAfter(limit, turns, n', f')
    ensures n == n' && f == f'
  {
    if n < n' {
      NotYet(limit, turns, n, f, n');
    } else if n' < n {
      NotYet(limit, turns, n', f', n);
    }
  }

  lemma NotYet(limit: nat, turns: nat -> Turn, n: nat, f: Finish, later: nat)
    requires EndsAfter(limit, turns, n, f) && n < later
    ensures !GoesOn(limit, turns, later)
  {
  }

  /** How many of the last turns brought nothing. */
  function IdleRun(turns: nat -> Turn, n: nat): nat {
    if n == 0 || BatchOf(turns(n - 1)) != [] then 0 else IdleRun(turns, n - 1) + 1
  }

  lemma {:induction false} IdleRunIsQuiet(turns: nat -> Turn, n: nat)
    ensures IdleRun(turns, n) <= n && (IdleRun(turns, n) >= 3 <==> Quiet(turns, n))
    ensures forall k: nat :: n - IdleRun(turns, n) <= k < n ==> BatchOf(turns(k)) == []
    ensures IdleRun(turns, n) < n ==> BatchOf(turns(n - IdleRun(turns, n) - 1)) != []
  {
    if n > 0 {
      IdleRunIsQuiet(turns, n - 1);
    }
  }

  lemma GoesOnBefore(limit: nat, turns: nat -> Turn, n: nat)
    requires n > 0 && GoesOn(limit, turns, n)
    ensures GoesOn(limit, turns, n - 1) && |Gathered(turns, n - 1)| < limit && !Quiet(turns, n - 1)
  {
    hide Gathered, Quiet;
  }

  lemma OneTurn(turns: nat -> Turn, n: nat)
    requires n > 0
    ensures Gathered(turns, n) == Gathered(turns, n - 1) + BatchOf(turns(n - 1))
    ensures IdleRun(turns, n) == if BatchOf(turns(n - 1)) == [] then IdleRun(turns, n - 1) + 1 else 0
  {
    hide BatchOf;
  }

  lemma {:induction false} TurnsAreFew(limit: nat, turns: nat -> Turn, n: nat)
    requires GoesOn(limit, turns, n)
    ensures n <= 3 * |Gathered(turns, n)| + IdleRun(turns, n)
  {
    hide *;
    if n > 0 {
      GoesOnBefore(limit, turns, n);
      OneTurn(turns, n);
      IdleRunIsQuiet(turns, n - 1);
      TurnsAreFew(limit, turns, n - 1);
    }
  }

  /** The replay polls once for each batch, and once more if the client fails. */
  ghost function Polls(limit: nat, turns: nat -> Turn, n: nat): nat {
    if |Gathered(turns, n)| < limit && !Quiet(turns, n) && !turns(n).canceled then n + 1 else n
  }

  lemma CountsAreFew(limit: nat, turns: nat -> Turn, n: nat)
    requires limit > 0 && GoesOn(limit, turns, n)
    ensures n <= 3 * limit && (|Gathered(turns, n)| < limit && !Quiet(turns, n) ==> n + 1 <= 3 * limit)
  {
    hide *;
    TurnsAreFew(limit, turns, n);
    IdleRunIsQuiet(turns, n);
    if n > 0 {
      GoesOnBefore(limit, turns, n);
      OneTurn(turns, n);
      IdleRunIsQuiet(turns, n - 1);
      TurnsAreFew(limit, turns, n - 1);
    }
  }

  /** MAIN RESULT.  Whatever the polls bring, a replay makes at most three polls per record of its
      limit and reports at most that many records. */
  lemma PollsAreBounded(limit: nat, turns: nat -> Turn, n: nat, f: Finish)
    requires limit > 0 && EndsAfter(limit, turns, n, f)
    ensures Polls(limit, turns, n) <= 3 * limit && f.count <= limit
  {
    hide Gathered, Quiet, GoesOn;
    CountsAreFew(limit, turns, n);
  }

  /** Every third turn brings one record. */
  function Trickle(r: Record): nat -> Turn {
    (k: nat) => Turn(false, Batch(if k % 3 == 2 then [r] else []))
  }

  lemma {:induction false} TrickleGathers(r: Record, n: nat)
    ensures |Gathered(Trickle(r), n)| == n / 3 && !Quiet(Trickle(r), n)
  {
    if n > 0 {
      TrickleGathers(r, n - 1);
    }
    assert n >= 3 ==> exists k: nat :: n - 3 <= k < n && k % 3 == 2 && BatchOf(Trickle(r)(k)) != [] by {
      if n >= 3 {
        var k := n - 1 - n % 3;
        assert k % 3 == 2 && BatchOf(Trickle(r)(k)) != [];
      }
    }
  }

  /** The bound is met. */
  lemma BoundIsMet(limit: nat, r: Record)
    requires limit > 0
    ensures EndsAfter(limit, Trickle(r), 3 * limit, Finish(limit, "completed", ""))
    ensures Polls(limit, Trickle(r), 3 * limit) == 3 * limit
  {
    forall n: nat ensures |Gathered(Trickle(r), n)| == n / 3 && !Quiet(Trickle(r), n) {
      TrickleGathers(r, n);
    }
    hide Gathered, Quiet;
  }

  // ---------- the loop ----------

  function Done(row: Session, f: Finish, now: string): Session {
    row.(status := f.status, count := f.count, finishedAt := now, lastError := f.error)
  }

  /** The session of a finished replay, if it is still listed. */
  function Finished(sessions: seq<Session>, id: string, f: Finish, now: string): seq<Session> {
    var i := IndexOf(sessions, SessionId, id);
    if i < 0 then sessions else sessions[i := Done(sessions[i], f, now)]
  }

  function HealthAfter(was: ReplayHealth, f: Finish, active: nat, now: string): ReplayHealth {
    ReplayHealth(f.status, active, if f.error != "" then f.error else was.lastError, now, f.count)
  }

  lemma ListedIds(sessions: seq<Session>, id: string)
    ensures id in ById(sessions, SessionId) <==> IndexOf(sessions, SessionId, id) >= 0
  {
    var i := IndexOf(sessions, SessionId, id);
    assert id in Ids(sessions, SessionId) <==> exists row :: row in sessions && SessionId(row) == id;
    assert i >= 0 ==> sessions[i] in sessions;
  }

  lemma FinishedTable(sessions: seq<Session>, id: string, f: Finish, now: string)
    requires DistinctIds(sessions, SessionId)
    ensures var table, after := ById(sessions, SessionId), Finished(sessions, id, f, now);
            && DistinctIds(after, SessionId)
            && ById(after, SessionId) == if id in table then table[id := Done(table[id], f, now)] else table
  {
    ListedIds(sessions, id);
    hide ById, Ids;
    var i := IndexOf(sessions, SessionId, id);
    if i >= 0 {
      Replaced(sessions, i, Done(sessions[i], f, now), SessionId);
    }
  }

  /** The report of a replay: one update, of its session and of the health fields; that it may fail is
      ignored. */
  method FinishReplay(
      o: Observer, id: string, count: nat, status: string, error: string, active: nat, now: string, diskOk: bool)
    returns (f: Finish, noted: bool)
    requires o.Valid()
    modifies o, o.graph
    ensures o.Valid() && f == Finish(count, status, error) && o.doc == old(o.doc)
    ensures o.ingestLog.events == old(o.ingestLog.events) + [I.Heartbeat]
    ensures noted <==> diskOk && !H.Twins(old(o.graph.View()))
    ensures !noted ==> o.graph.View() == old(o.graph.View())
    ensures o.sessions == if noted then Finished(old(o.sessions), id, f, now) else old(o.sessions)
    ensures noted ==> ReportStands(old(o.sessions), o.sessions, id, true, f, now)
    ensures o.replay == if noted then HealthAfter(old(o.replay), f, active, now) else old(o.replay)
    ensures noted ==> HealthStands(old(o.replay), o.replay, f, active, now)
  {
    f := Finish(count, status, error);
    var sessions := o.sessions;
    var i := Find(sessions, SessionId, id);
    if i >= 0 {
      sessions := sessions[i := Done(sessions[i], f, now)];
    }
    var lastError := o.replay.lastError;
    if error != "" {
      lastError := error;
    }
    var replay := ReplayHealth(status, active, lastError, now, count);
    assert sessions == Finished(o.sessions, id, f, now) && replay == HealthAfter(o.replay, f, active, now);
    hide *;
    o.StartOfLog();
    FinishedTable(o.sessions, id, f, now);
    SameRows(o.sessions);
    HealthIs(o.replay, active, now);
    ReportOnRows(o.sessions, o.sessions, id, true, f, now);
    noted := o.NoteReplays(sessions, replay, diskOk);
  }

  lemma GoesOnAfter(limit: nat, turns: nat -> Turn, n: nat)
    requires GoesOn(limit, turns, n) && !turns(n).canceled && turns(n).fetch.Batch?
    requires |Gathered(turns, n)| < limit && !Quiet(turns, n)
    ensures GoesOn(limit, turns, n + 1)
  {
    hide Quiet, Gathered;
  }

  lemma TurnBrings(turns: nat -> Turn, n: nat)
    requires !turns(n).canceled && turns(n).fetch.Batch?
    ensures BatchOf(turns(n)) == turns(n).fetch.records
    ensures Gathered(turns, n + 1) == Gathered(turns, n) + turns(n).fetch.records
    ensures IdleRun(turns, n + 1) == if turns(n).fetch.records == [] then IdleRun(turns, n) + 1 else 0
  {
    OneTurn(turns, n + 1);
    hide Gathered, IdleRun;
  }

  /** Leaving the loop at turn `n` is the stated end. */
  lemma EndsHere(limit: nat, turns: nat -> Turn, n: nat)
    requires GoesOn(limit, turns, n)
    ensures var g := |Gathered(turns, n)|;
            && (g >= limit || Quiet(turns, n) ==>
                  EndsAfter(limit, turns, n, Finish(if g <= limit then g else limit, "completed", ""))
                  && Polls(limit, turns, n) == n)
            && (g < limit && !Quiet(turns, n) && turns(n).canceled ==>
                  EndsAfter(limit, turns, n, Finish(g, "canceled", "")) && Polls(limit, turns, n) == n)
            && (g < limit && !Quiet(turns, n) && !turns(n).canceled ==> Polls(limit, turns, n) == n + 1)
            && (g < limit && !Quiet(turns, n) && !turns(n).canceled && turns(n).fetch.Fatal? ==>
                  EndsAfter(limit, turns, n,
                    if turns(n).fetch.canceled then Finish(g, "canceled", "")
                    else Finish(g, "failed", turns(n).fetch.error)))
  {
    hide Quiet, GoesOn, Gathered;
  }

  lemma {:induction false} DecodableJoins(a: seq<Record>, b: seq<Record>, group: string)
    ensures Decodable(a + b, group) == Decodable(a, group) + Decodable(b, group)
    decreases |b|
  {
    hide Decode;
    if b == [] {
      assert a + b == a;
    } else {
      var front := b[..|b| - 1];
      assert (a + b)[..|a + b| - 1] == a + front;
      DecodableJoins(a, front, group);
    }
  }

  /** Adding a batch, of which `count` records were handled. */
  lemma MoreHandled(offsets: seq<Record>, batch: seq<Record>, processed: nat, limit: nat, count: nat, group: string)
    requires processed == |offsets| < limit
    requires count == if processed + |batch| <= limit then |batch| else limit - processed
    ensures var all := offsets + batch;
            && processed + count == (if |all| <= limit then |all| else limit)
            && Decodable(all[..processed + count], group) ==
               Decodable(offsets[..processed], group) + Decodable(batch[..count], group)
  {
    hide Decodable;
    assert (offsets + batch)[..processed + count] == offsets + batch[..count];
    assert offsets[..processed] == offsets;
    DecodableJoins(offsets, batch[..count], group);
  }

  /** Handles the records of one batch until the limit is reached; what becomes of a record is not
      looked at. */
  method HandleBatch(o: Observer, batch: seq<Record>, worlds: nat -> World, processed: nat, limit: nat)
    returns (count: nat)
    requires o.Valid() && processed < limit && forall r :: r in batch ==> r.timestamp != ""
    modifies o, o.graph
    ensures o.Valid() && count == if processed + |batch| <= limit then |batch| else limit - processed
    ensures Rearranged(o.sessions, old(o.sessions)) && o.replay == old(o.replay)
    ensures SameBut(old(o.ingestLog.events), o.ingestLog.events)
    ensures Offered(o.ingestLog.events) == Offered(old(o.ingestLog.events)) + Decodable(batch[..count], o.group)
  {
    hide *;
    count := 0;
    SameRows(o.sessions);
    NothingElse(o.ingestLog.events, o.ingestLog.events, o.ingestLog.events);
    assert batch[..0] == [] && Decodable([], o.group) == [] by { NoneDecodable(o.group); }
    while count < |batch| && processed + count < limit
      invariant o.Valid() && count <= |batch| && processed + count <= limit
      invariant Rearranged(o.sessions, old(o.sessions)) && o.replay == old(o.replay)
      invariant SameBut(old(o.ingestLog.events), o.ingestLog.events)
      invariant Offered(o.ingestLog.events) == Offered(old(o.ingestLog.events)) + Decodable(batch[..count], o.group)
    {
      ghost var rows, events := o.sessions, o.ingestLog.events;
      assert batch[count] in batch;
      assert batch[..count + 1] == batch[..count] + [batch[count]];
      DecodableSplits(batch[..count], batch[count], o.group);
      HandleOne(o, batch[count], worlds(processed + count));
      SameRowsOn(old(o.sessions), rows, o.sessions);
      NothingElse(old(o.ingestLog.events), events, o.ingestLog.events);
      count := count + 1;
    }
  }

  /** No reject noted and nothing reported in between. */
  ghost predicate SameBut(before: seq<I.Event>, after: seq<I.Event>) {
    Noted(after) == Noted(before) && Beats(after) == Beats(before)
  }

  lemma NothingElse(a: seq<I.Event>, b: seq<I.Event>, c: seq<I.Event>)
    ensures SameBut(a, a) && (SameBut(a, b) && SameBut(b, c) ==> SameBut(a, c))
  {
    hide Noted, Beats;
  }

  method HandleOne(o: Observer, rec: Record, w: World)
    requires o.Valid() && rec.timestamp != ""
    modifies o, o.graph
    ensures o.Valid() && Rearranged(o.sessions, old(o.sessions)) && o.replay == old(o.replay)
    ensures SameBut(old(o.ingestLog.events), o.ingestLog.events)
    ensures Offered(o.ingestLog.events) ==
            Offered(old(o.ingestLog.events)) + var d := Decode(rec, o.group); if d.Accepted? then [d.msg] else []
  {
    hide Decode, H.Twins, RecordEvents, Noted, Offered, Beats, Rearranged;
    ghost var before, updated := o.ingestLog.events, w.updateOk && !H.Twins(o.graph.View());
    var reason, ok, kept := o.HandleRecord(rec, w);
    EventsOfRecord(before, Decode(rec, o.group), updated, w);
  }

  /** The history of one replay's report: after all records, one update that carries it. */
  ghost predicate ReportedOnce(before: seq<I.Event>, after: seq<I.Event>) {
    && Noted(after) == Noted(before) && Beats(after) == Beats(before) + 1
    && after != [] && after[|after| - 1] == I.Heartbeat
  }

  lemma ReportIsOne(before: seq<I.Event>, handled: seq<I.Event>)
    requires SameBut(before, handled)
    ensures ReportedOnce(before, handled + [I.Heartbeat])
    ensures Offered(handled + [I.Heartbeat]) == Offered(handled)
  {
    OneEvent(handled, I.Heartbeat);
    hide Noted, Beats, Offered;
  }

  /** The sessions are listed as before, in some order, but for the one that was reported on. */
  ghost predicate ReportStands(
      was: seq<Session>, now: seq<Session>, id: string, noted: bool, f: Finish, finishedAt: string)
  {
    var table := ById(was, SessionId);
    && DistinctIds(now, SessionId)
    && ById(now, SessionId) ==
       if noted && id in table
       then table[id := table[id].(status := f.status, count := f.count,
                                   finishedAt := finishedAt, lastError := f.error)]
       else table
  }

  lemma ReportOnRows(was: seq<Session>, rows: seq<Session>, id: string, noted: bool, f: Finish, finishedAt: string)
    requires DistinctIds(was, SessionId) && Rearranged(rows, was)
    ensures ReportStands(was, if noted then Finished(rows, id, f, finishedAt) else rows, id, noted, f, finishedAt)
  {
    Reordered(was, rows, SessionId);
    hide ById, Finished, DistinctIds;
    FinishedTable(rows, id, f, finishedAt);
  }

  /** The health fields carry the report; the last error stays if there was none now. */
  ghost predicate HealthStands(was: ReplayHealth, health: ReplayHealth, f: Finish, active: nat, now: string) {
    && health.status == f.status && health.active == active && health.lastFinishedAt == now
    && health.lastCount == f.count && health.lastError == if f.error != "" then f.error else was.lastError
  }

  /** The polling loop: how it ends, and what was handled on the way. */
  method TakeTurns(o: Observer, turns: nat -> Turn, worlds: nat -> World)
    returns (processed: nat, status: string, error: string, polls: nat, offsets: seq<Record>, ghost n: nat)
    requires o.Valid() && forall k: nat, r :: r in BatchOf(turns(k)) ==> r.timestamp != ""
    modifies o, o.graph
    ensures o.Valid() && Rearranged(o.sessions, old(o.sessions)) && o.replay == old(o.replay)
    ensures SameBut(old(o.ingestLog.events), o.ingestLog.events)
    ensures EndsAfter(Limit(o.limit), turns, n, Finish(processed, status, error))
    ensures polls == Polls(Limit(o.limit), turns, n) && offsets == Gathered(turns, n) && processed <= |offsets|
    ensures Offered(o.ingestLog.events) == Offered(old(o.ingestLog.events)) + Decodable(offsets[..processed], o.group)
  {
    hide *;
    n, polls, offsets, processed := 0, 0, [], 0;
    SameRows(o.sessions);
    NothingElse(o.ingestLog.events, o.ingestLog.events, o.ingestLog.events);
    ghost var rows, events := o.sessions, o.ingestLog.events;
    var idlePolls := 0;
    var limit := Limit(o.limit);
    AtStart(limit, turns, o.group);
    while processed < limit && idlePolls < 3
      invariant o.Valid() && n == polls && offsets == Gathered(turns, n)
      invariant processed == (if |offsets| <= limit then |offsets| else limit)
      invariant GoesOn(limit, turns, n) && idlePolls == IdleRun(turns, n)
      invariant Rearranged(o.sessions, old(o.sessions)) && o.replay == old(o.replay)
      invariant SameBut(old(o.ingestLog.events), o.ingestLog.events)
      invariant rows == o.sessions && events == o.ingestLog.events
      invariant Offered(o.ingestLog.events) ==
                Offered(old(o.ingestLog.events)) + Decodable(offsets[..processed], o.group)
      decreases limit - processed, 3 - idlePolls
    {
      IdleRunIsQuiet(turns, n);
      EndsHere(limit, turns, n);
      var turn := turns(polls);
      if turn.canceled {
        return processed, "canceled", "", polls, offsets, n;
      }
      if turn.fetch.Fatal? {
        if turn.fetch.canceled {
          return processed, "canceled", "", polls + 1, offsets, n;
        }
        return processed, "failed", turn.fetch.error, polls + 1, offsets, n;
      }
      GoesOnAfter(limit, turns, n);
      TurnBrings(turns, n);
      polls := polls + 1;
      n := polls;
      var batch := turn.fetch.records;
      if batch == [] {
        idlePolls := idlePolls + 1;
        assert offsets + batch == offsets;
        continue;
      }
      idlePolls := 0;
      assert forall r :: r in batch ==> r in BatchOf(turns(polls - 1));
      var count := HandleBatch(o, batch, worlds, processed, limit);
      SameRowsOn(old(o.sessions), rows, o.sessions);
      NothingElse(old(o.ingestLog.events), events, o.ingestLog.events);
      MoreHandled(offsets, batch, processed, limit, count, o.group);
      processed := processed + count;
      offsets := offsets + batch;
      rows, events := o.sessions, o.ingestLog.events;
    }
    IdleRunIsQuiet(turns, n);
    EndsHere(limit, turns, n);
    return processed, "completed", "", polls, offsets, n;
  }

  /** A replay from start to report.  `n` counts the batches it took; `active` is the number of replays
      still running when it ends, and `noted` says whether its report was stored. */
  method RunReplay(
      o: Observer, id: string, clientError: Option<string>, turns: nat -> Turn, worlds: nat -> World,
      active: nat, now: string, finishOk: bool)
    returns (report: Finish, noted: bool, polls: nat, offsets: seq<Record>, ghost n: nat)
    requires o.Valid() && forall k: nat, r :: r in BatchOf(turns(k)) ==> r.timestamp != ""
    modifies o, o.graph
    ensures o.Valid()
    ensures clientError.Some? ==>
              && report == Finish(0, "failed", clientError.value) && polls == 0 && offsets == []
              && Offered(o.ingestLog.events) == Offered(old(o.ingestLog.events))
    ensures clientError.None? ==>
              && EndsAfter(if o.limit <= 0 then 5000 else o.limit, turns, n, report)
              && polls == Polls(if o.limit <= 0 then 5000 else o.limit, turns, n)
              && offsets == Gathered(turns, n) && report.count <= |offsets|
              && Offered(o.ingestLog.events) ==
                 Offered(old(o.ingestLog.events)) + Decodable(Gathered(turns, n)[..report.count], o.group)
    ensures ReportedOnce(old(o.ingestLog.events), o.ingestLog.events)
    ensures (noted ==> finishOk) && (finishOk && !H.Twins(o.graph.View()) ==> noted)
    ensures ReportStands(old(o.sessions), o.sessions, id, noted, report, now)
    ensures !noted ==> o.replay == old(o.replay)
    ensures noted ==> HealthStands(old(o.replay), o.replay, report, active, now)
  {
    hide *;
    n := 0;
    o.StartOfLog();
    LimitIs(o.limit);
    if clientError.Some? {
      SameRows(o.sessions);
      NothingElse(o.ingestLog.events, o.ingestLog.events, o.ingestLog.events);
      ReportIsOne(o.ingestLog.events, o.ingestLog.events);
      report, noted := FinishReplay(o, id, 0, "failed", clientError.value, active, now, finishOk);
      ReportOnRows(old(o.sessions), old(o.sessions), id, noted, report, now);
      return report, noted, 0, [], 0;
    }
    var processed, status, error;
    processed, status, error, polls, offsets, n := TakeTurns(o, turns, worlds);
    ghost var rows := o.sessions;
    ReportIsOne(old(o.ingestLog.events), o.ingestLog.events);
    report, noted := FinishReplay(o, id, processed, status, error, active, now, finishOk);
    ReportOnRows(old(o.sessions), rows, id, noted, report, now);
  }

  lemma HealthIs(was: ReplayHealth, active: nat, now: string)
    ensures forall f :: HealthStands(was, HealthAfter(was, f, active, now), f, active, now)
  {
  }

  lemma LimitIs(configured: int)
    ensures Limit(configured) == if configured <= 0 then 5000 else configured
  {
  }

  lemma AtStart(limit: nat, turns: nat -> Turn, group: string)
    ensures GoesOn(limit, turns, 0) && Gathered(turns, 0) == [] && IdleRun(turns, 0) == 0
    ensures Decodable([], group) == []
  {
  }
}
