/** The queue of replay requests: the API inserts rows, the observer's loop claims them oldest
    first, starts a replay and marks the outcome.  Every transaction may fail, the process may be
    restarted at any moment, and inserts come between any two transactions.
 */
module ReplayQueue {
  import opened Ordering
  import opened Records
  import opened Text

  datatype Status = Pending | Claimed | Accepted | Failed

  datatype Row = Row(requestedAt: string, topics: seq<string>, status: Status)

  /** Where the loop stands between its transactions. */
  datatype Phase = Idle | Starting(id: string) | Marking(id: string, ok: bool)

  /** `started` lists the requests for which a replay was started or tried. */
  datatype State = State(rows: map<string, Row>, phase: Phase, started: seq<string>)

  const START := State(map[], Idle, [])

  datatype Event =
    | Insert(id: string, requestedAt: string, topics: seq<string>)
    | Claim(diskOk: bool, rereadOk: bool)
    | Start(ok: bool)
    | Mark(diskOk: bool)
    | Restart

  // ---------- the order of requests ----------

  predicate Older(at: string, id: string, at': string, id': string) {
    Less(at, at') || (at == at' && Less(id, id'))
  }

  ghost predicate IsFirst(rows: map<string, Row>, id: string) {
    && id in rows && rows[id].status.Pending?
    && forall other :: other in rows && rows[other].status.Pending? && other != id ==>
         || Less(rows[id].requestedAt, rows[other].requestedAt)
         || (rows[id].requestedAt == rows[other].requestedAt && Less(id, other))
  }

  ghost function First(rows: map<string, Row>): (found: Option<string>)
    ensures found.Some? ==> IsFirst(rows, found.value)
    ensures found.None? ==> forall id :: id in rows ==> !rows[id].status.Pending?
  {
    FirstExists(rows);
    if id :| IsFirst(rows, id) then Some(id) else None
  }

  lemma OlderIsOrder(at: string, id: string, at': string, id': string, at'': string, id'': string)
    ensures id != id' ==> Older(at, id, at', id') != Older(at', id', at, id)
    ensures Older(at, id, at', id') && Older(at', id', at'', id'') ==> Older(at, id, at'', id'')
  {
    LessIsOrder();
    LessTotal(at, at');
    LessTotal(id, id');
  }

  ghost predicate OldestIn(rows: map<string, Row>, ids: set<string>, id: string)
    requires ids <= rows.Keys
  {
    id in ids && forall other :: other in ids && other != id ==>
      Older(rows[id].requestedAt, id, rows[other].requestedAt, other)
  }

  lemma {:induction false} SomeOldest(rows: map<string, Row>, ids: set<string>) returns (id: string)
    requires ids <= rows.Keys && ids != {}
    ensures OldestIn(rows, ids, id)
    decreases ids
  {
    hide Older;
    var x :| x in ids;
    id := x;
    if ids != {x} {
      var y := SomeOldest(rows, ids - {x});
      id := if Older(rows[x].requestedAt, x, rows[y].requestedAt, y) then x else y;
      OlderIsOrder(rows[x].requestedAt, x, rows[y].requestedAt, y, "", "");
      forall other | other in ids && other != id
        ensures Older(rows[id].requestedAt, id, rows[other].requestedAt, other)
      {
        OlderIsOrder(rows[x].requestedAt, x, rows[y].requestedAt, y, rows[other].requestedAt, other);
      }
    }
  }

  lemma FirstByOlder(rows: map<string, Row>, id: string)
    ensures IsFirst(rows, id) <==>
            && id in rows && rows[id].status.Pending?
            && forall other :: other in rows && rows[other].status.Pending? && other != id ==>
                 Older(rows[id].requestedAt, id, rows[other].requestedAt, other)
  {
  }

  lemma FirstExists(rows: map<string, Row>)
    ensures (exists id :: id in rows && rows[id].status.Pending?) <==> exists id :: IsFirst(rows, id)
  {
    hide Older;
    var pending := set id | id in rows && rows[id].status.Pending?;
    if pending != {} {
      var id := SomeOldest(rows, pending);
      FirstByOlder(rows, id);
    }
    if id :| id in rows && rows[id].status.Pending? {
      assert id in pending;
    }
  }

  lemma FirstIsUnique(rows: map<string, Row>, a: string, b: string)
    requires IsFirst(rows, a) && IsFirst(rows, b)
    ensures a == b
  {
    OlderIsOrder(rows[a].requestedAt, a, rows[b].requestedAt, b, "", "");
    hide Older;
  }

  // ---------- the steps ----------

  function With(rows: map<string, Row>, id: string, status: Status): map<string, Row>
    requires id in rows
  {
    rows[id := rows[id].(status := status)]
  }

  /** A step that does not fit the loop's phase does nothing. */
  ghost function Step(s: State, e: Event): State {
    match e
    case Insert(id, at, topics) =>
      if id in s.rows then s else s.(rows := s.rows[id := Row(at, topics, Pending)])
    case Claim(diskOk, rereadOk) =>
      var first := First(s.rows);
      if !s.phase.Idle? || !diskOk || first.None? then s
      else s.(rows := With(s.rows, first.value, Claimed), phase := if rereadOk then Starting(first.value) else Idle)
    case Start(ok) =>
      if s.phase.Starting? then s.(phase := Marking(s.phase.id, ok), started := s.started + [s.phase.id]) else s
    case Mark(diskOk) =>
      if !s.phase.Marking? then s
      else if !diskOk || s.phase.id !in s.rows then s.(phase := Idle)
      else s.(rows := With(s.rows, s.phase.id, if s.phase.ok then Accepted else Failed), phase := Idle)
    case Restart => s.(phase := Idle)
  }

  ghost function Run(s: State, events: seq<Event>): State
    decreases |events|
  {
    if events == [] then s else Run(Step(s, events[0]), events[1..])
  }

  lemma {:induction false} RunSplits(s: State, events: seq<Event>, more: seq<Event>)
    ensures Run(s, events + more) == Run(Run(s, events), more)
    decreases |events|
  {
    if events == [] {
      assert events + more == more;
    } else {
      assert (events + more)[1..] == events[1..] + more;
      RunSplits(Step(s, events[0]), events[1..], more);
    }
  }

  // ---------- what every run keeps ----------

  /** The request in the loop's hands is claimed; what was started is claimed or decided, once;
      what is decided was started. */
  ghost predicate Sound(s: State) {
    && (s.phase.Starting? ==>
          s.phase.id in s.rows && s.rows[s.phase.id].status.Claimed? && s.phase.id !in s.started)
    && (s.phase.Marking? ==>
          s.phase.id in s.rows && s.rows[s.phase.id].status.Claimed? && s.phase.id in s.started)
    && NoDuplicates(s.started)
    && (forall id :: id in s.started ==> id in s.rows && !s.rows[id].status.Pending?)
    && (forall id :: id in s.rows && (s.rows[id].status.Accepted? || s.rows[id].status.Failed?) ==> id in s.started)
  }

  lemma StepKeepsSound(s: State, e: Event)
    requires Sound(s)
    ensures Sound(Step(s, e))
  {
    hide IsFirst, Older;
    assert forall id :: IsFirst(s.rows, id) ==> id in s.rows && s.rows[id].status.Pending? by {
      forall id | IsFirst(s.rows, id) ensures id in s.rows && s.rows[id].status.Pending? {
        FirstIsPending(s.rows, id);
      }
    }
  }

  lemma FirstIsPending(rows: map<string, Row>, id: string)
    requires IsFirst(rows, id)
    ensures id in rows && rows[id].status.Pending?
  {
  }

  lemma {:induction false} RunKeepsSound(s: State, events: seq<Event>)
    requires Sound(s)
    ensures Sound(Run(s, events))
    decreases |events|
  {
    hide Sound, Step;
    if events != [] {
      StepKeepsSound(s, events[0]);
      RunKeepsSound(Step(s, events[0]), events[1..]);
    }
  }

  /** A status moves from pending to claimed to accepted or failed, and never back. */
  predicate Advances(was: Status, is': Status) {
    was == is' || was.Pending? || (was.Claimed? && !is'.Pending?)
  }

  ghost predicate Extends(s: State, s': State) {
    && (forall id :: id in s.rows ==>
          && id in s'.rows && s'.rows[id].requestedAt == s.rows[id].requestedAt
          && s'.rows[id].topics == s.rows[id].topics
          && Advances(s.rows[id].status, s'.rows[id].status))
    && s.started <= s'.started
  }

  lemma StepExtends(s: State, e: Event)
    requires Sound(s)
    ensures Extends(s, Step(s, e))
  {
    hide Older;
  }

  lemma {:induction false} RunExtends(s: State, events: seq<Event>)
    requires Sound(s)
    ensures Extends(s, Run(s, events))
    decreases |events|
  {
    if events != [] {
      var s1 := Step(s, events[0]);
      StepKeepsSound(s, events[0]);
      StepExtends(s, events[0]);
      RunExtends(s1, events[1..]);
      hide Step, Sound;
    }
  }

  /** MAIN RESULT.  Under every interleaving of inserts and loop steps, whatever fails and whenever
      the process restarts: a replay is started at most once per request; rows stay, keep their
      time and topics, and only advance; and a request counts as accepted or failed only after its
      start. */
  lemma AtMostOnce(before: seq<Event>, after: seq<Event>)
    ensures var s, s' := Run(START, before), Run(START, before + after);
            && NoDuplicates(s'.started) && Extends(s, s')
            && (forall id :: id in s'.rows && (s'.rows[id].status.Accepted? || s'.rows[id].status.Failed?) ==>
                  id in s'.started)
  {
    hide Sound, Step, Extends;
    StartIsSound();
    var s := Run(START, before);
    RunSplits(START, before, after);
    RunKeepsSound(START, before);
    RunKeepsSound(s, after);
    RunExtends(s, after);
    SoundParts(Run(s, after));
  }

  lemma StartIsSound()
    ensures Sound(START)
  {
  }

  lemma SoundParts(s: State)
    requires Sound(s)
    ensures NoDuplicates(s.started)
    ensures forall id :: id in s.rows && (s.rows[id].status.Accepted? || s.rows[id].status.Failed?) ==> id in s.started
  {
  }

  /** A step takes a pending request exactly if it is a claim that commits and nothing pending is older. */
  lemma ClaimsTheOldest(s: State, e: Event, id: string)
    requires Sound(s) && id in s.rows && s.rows[id].status.Pending?
    ensures var s' := Step(s, e);
            id in s'.rows && (!s'.rows[id].status.Pending? <==>
              e.Claim? && s.phase.Idle? && e.diskOk && IsFirst(s.rows, id))
  {
    if e.Claim? && IsFirst(s.rows, id) && First(s.rows).Some? {
      FirstIsUnique(s.rows, id, First(s.rows).value);
    }
    hide Older;
  }

  // ---------- in request order ----------

  /** Each request is newer than all before it: the clock does not run backwards. */
  ghost predicate InClockOrder(s: State, events: seq<Event>)
    decreases |events|
  {
    events != [] ==>
      && (events[0].Insert? && events[0].id !in s.rows ==>
            forall id :: id in s.rows ==>
              || Less(s.rows[id].requestedAt, events[0].requestedAt)
              || (s.rows[id].requestedAt == events[0].requestedAt && Less(id, events[0].id)))
      && InClockOrder(Step(s, events[0]), events[1..])
  }

  ghost predicate IdOlder(s: State, a: string, b: string) {
    a in s.rows && b in s.rows && Older(s.rows[a].requestedAt, a, s.rows[b].requestedAt, b)
  }

  /** Nothing pending is older than anything taken, and the starts went oldest first. */
  ghost predicate Ordered(s: State) {
    && (forall a, b :: a in s.rows && b in s.rows && !s.rows[a].status.Pending? && s.rows[b].status.Pending? ==>
          IdOlder(s, a, b))
    && (forall i, j :: 0 <= i < j < |s.started| ==> IdOlder(s, s.started[i], s.started[j]))
    && (s.phase.Starting? ==> forall a :: a in s.started ==> IdOlder(s, a, s.phase.id))
  }

  lemma StepKeepsOrder(s: State, e: Event)
    requires Sound(s) && Ordered(s) && InClockOrder(s, [e])
    ensures Ordered(Step(s, e))
  {
    StepExtends(s, e);
    var s' := Step(s, e);
    hide Older, First;
    SameKeys(s, s');
    match e
    case Insert(id, at, topics) =>
      if id !in s.rows {
        assert forall a :: a in s.rows ==> IdOlder(s', a, id);
      }
    case Claim(_, _) => ClaimKeepsOrder(s, e);
    case Start(_) =>
    case Mark(_) =>
    case Restart =>
  }

  lemma SameKeys(s: State, s': State)
    requires Extends(s, s')
    ensures forall a, b :: IdOlder(s, a, b) ==> IdOlder(s', a, b)
  {
    hide Older;
  }

  lemma ClaimKeepsOrder(s: State, e: Event)
    requires Sound(s) && Ordered(s) && e.Claim?
    ensures Ordered(Step(s, e))
  {
    StepExtends(s, e);
    var s' := Step(s, e);
    SameKeys(s, s');
    var first := First(s.rows);
    hide Older;
    if s' != s {
      var id := first.value;
      assert s'.rows == With(s.rows, id, Claimed);
      forall a, b | a in s'.rows && b in s'.rows && !s'.rows[a].status.Pending? && s'.rows[b].status.Pending?
        ensures IdOlder(s', a, b)
      {
        assert b != id;
        assert a == id ==> IdOlder(s, a, b);
        assert a != id ==> IdOlder(s, a, b);
      }
    }
  }

  lemma {:induction false} RunKeepsOrder(s: State, events: seq<Event>)
    requires Sound(s) && Ordered(s) && InClockOrder(s, events)
    ensures Ordered(Run(s, events))
    decreases |events|
  {
    if events != [] {
      assert [events[0]][1..] == [];
      assert InClockOrder(s, [events[0]]);
      hide Sound, Ordered, Step;
      StepKeepsSound(s, events[0]);
      StepKeepsOrder(s, events[0]);
      RunKeepsOrder(Step(s, events[0]), events[1..]);
    }
  }

  /** MAIN RESULT.  If requests arrive in clock order, replays start in the order of the requests. */
  lemma FirstInFirstOut(events: seq<Event>, i: nat, j: nat)
    requires InClockOrder(START, events) && i < j < |Run(START, events).started|
    ensures var s := Run(START, events);
            var a, b := s.started[i], s.started[j];
            && a in s.rows && b in s.rows
            && (|| Less(s.rows[a].requestedAt, s.rows[b].requestedAt)
                || (s.rows[a].requestedAt == s.rows[b].requestedAt && Less(a, b)))
  {
    RunKeepsOrder(START, events);
    hide Less, Run, InClockOrder;
    assert IdOlder(Run(START, events), Run(START, events).started[i], Run(START, events).started[j]);
  }

  // ---------- abandoned requests ----------

  /** Claimed, but not in the loop's hands. */
  ghost predicate Abandoned(s: State, id: string) {
    id in s.rows && s.rows[id].status.Claimed? && !(s.phase.Starting? && s.phase.id == id)
    && !(s.phase.Marking? && s.phase.id == id)
  }

  lemma StepKeepsAbandoned(s: State, e: Event, id: string)
    requires Abandoned(s, id)
    ensures Abandoned(Step(s, e), id) && (id in Step(s, e).started <==> id in s.started)
  {
    hide Older;
  }

  /** MAIN RESULT.  A claimed request that left the loop's hands, because a re-read, a mark or the
      process failed, stays claimed for ever, and is not started later. */
  lemma {:induction false} AbandonedForEver(s: State, events: seq<Event>, id: string)
    requires Abandoned(s, id)
    ensures Abandoned(Run(s, events), id) && (id in Run(s, events).started <==> id in s.started)
    decreases |events|
  {
    hide Abandoned, Step;
    if events != [] {
      StepKeepsAbandoned(s, events[0], id);
      AbandonedForEver(Step(s, events[0]), events[1..], id);
    }
  }

  /** A step abandons a request exactly if its claim could not be read back, its outcome could not
      be marked, or the process restarted while it was in hand. */
  lemma AbandonedBy(s: State, e: Event, id: string)
    requires Sound(s) && !Abandoned(s, id)
    ensures Abandoned(Step(s, e), id) <==>
              || (e.Claim? && s.phase.Idle? && e.diskOk && !e.rereadOk && First(s.rows) == Some(id))
              || (e.Mark? && !e.diskOk && s.phase.Marking? && s.phase.id == id)
              || (e.Restart? && !s.phase.Idle? && s.phase.id == id)
  {
    hide Older;
  }

  // ---------- the table and the loop ----------

  class RequestTable {
    var rows: map<string, Row>
    var phase: Phase
    ghost var started: seq<string>

    ghost function View(): State
      reads this
    {
      State(rows, phase, started)
    }

    constructor ()
      ensures View() == START
    {
      rows, phase, started := map[], Idle, [];
    }

    /** The API's insert; the primary key refuses an id that is taken. */
    method Request(id: string, requestedAt: string, topics: seq<string>) returns (ok: bool)
      modifies this`rows
      ensures ok <==> id !in old(rows)
      ensures View() == Step(old(View()), Insert(id, requestedAt, topics))
      ensures rows == if ok then old(rows)[id := Row(requestedAt, topics, Pending)] else old(rows)
    {
      if id in rows {
        return false;
      }
      rows := rows[id := Row(requestedAt, topics, Pending)];
      return true;
    }

    /** Claims the oldest pending request in one transaction. */
    method ClaimNext(diskOk: bool, rereadOk: bool) returns (id: Option<string>, ok: bool)
      requires phase.Idle?
      modifies this`rows, this`phase
      ensures View() == Step(old(View()), Claim(diskOk, rereadOk))
      ensures ok <==> diskOk && rereadOk
      ensures ok ==> id == First(old(rows)) && (id.Some? ==> phase == Starting(id.value)) && (id.None? ==> phase.Idle?)
      ensures !ok ==> phase.Idle?
      ensures forall r :: r in rows <==> r in old(rows)
      ensures forall r :: r in rows ==>
                rows[r] == if diskOk && IsFirst(old(rows), r) then old(rows)[r].(status := Claimed) else old(rows)[r]
    {
      forall a, b | IsFirst(rows, a) && IsFirst(rows, b) ensures a == b {
        FirstIsUnique(rows, a, b);
      }
      if !diskOk {
        return None, false;
      }
      FirstExists(rows);
      id := None;
      if exists other :: other in rows && rows[other].status.Pending? {
        var oldest :| oldest in rows && rows[oldest].status.Pending?
          && forall other :: other in rows && rows[other].status.Pending? && other != oldest ==>
               Older(rows[oldest].requestedAt, oldest, rows[other].requestedAt, other);
        FirstByOlder(rows, oldest);
        FirstIsUnique(rows, oldest, First(rows).value);
        id := Some(oldest);
        rows := rows[oldest := rows[oldest].(status := Claimed)];
        if rereadOk {
          phase := Starting(oldest);
        }
      }
      ok := rereadOk;
    }

    method StartReplay(ok: bool)
      requires phase.Starting?
      modifies this`phase, this`started
      ensures View() == Step(old(View()), Start(ok)) && phase == Marking(old(phase).id, ok)
    {
      started := started + [phase.id];
      phase := Marking(phase.id, ok);
    }

    /** Marks the outcome; if that fails the request stays claimed. */
    method MarkOutcome(diskOk: bool) returns (ok: bool)
      requires phase.Marking?
      modifies this`rows, this`phase
      ensures ok <==> diskOk
      ensures View() == Step(old(View()), Mark(diskOk)) && phase.Idle?
      ensures var id := old(phase).id;
              rows == if !diskOk || id !in old(rows) then old(rows)
                      else if old(phase).ok then old(rows)[id := old(rows)[id].(status := Accepted)]
                      else old(rows)[id := old(rows)[id].(status := Failed)]
    {
      var id, status := phase.id, if phase.ok then Accepted else Failed;
      phase := Idle;
      if diskOk && id in rows {
        rows := rows[id := rows[id].(status := status)];
      }
      return diskOk;
    }

    /** One turn of the loop, with what the API inserts between its transactions. */
    method ProcessReplayRequests(
        claimOk: bool, rereadOk: bool, startOk: bool, markOk: bool, first: seq<Event>, second: seq<Event>)
      returns (ok: bool, ghost events: seq<Event>)
      requires phase.Idle? && (forall e :: e in first + second ==> e.Insert?)
      modifies this
      ensures phase.Idle? && View() == Run(old(View()), events)
      ensures var none := First(old(rows)).None?;
              && (ok <==> claimOk && rereadOk && (none || (startOk && markOk)))
              && events == [Claim(claimOk, rereadOk)] +
                   if !claimOk || !rereadOk || none then [] else first + [Start(startOk)] + second + [Mark(markOk)]
    {
      hide Step, First;
      var id;
      id, ok := ClaimNext(claimOk, rereadOk);
      events := [Claim(claimOk, rereadOk)];
      RunOne(old(View()), events[0]);
      if !ok || id.None? {
        return;
      }
      ghost var before := events;
      InsertAll(first);
      RunSplits(old(View()), before, first);
      ghost var was := View();
      StartReplay(startOk);
      RunOne(was, Start(startOk));
      RunSplits(old(View()), before + first, [Start(startOk)]);
      InsertAll(second);
      RunSplits(old(View()), before + first + [Start(startOk)], second);
      was := View();
      ok := MarkOutcome(markOk);
      RunOne(was, Mark(markOk));
      RunSplits(old(View()), before + first + [Start(startOk)] + second, [Mark(markOk)]);
      events := before + first + [Start(startOk)] + second + [Mark(markOk)];
      assert events == before + (first + [Start(startOk)] + second + [Mark(markOk)]);
      ok := ok && startOk;
    }

    method InsertAll(inserts: seq<Event>)
      requires forall e :: e in inserts ==> e.Insert?
      modifies this`rows
      ensures View() == Run(old(View()), inserts)
    {
      for i := 0 to |inserts|
        invariant View() == Run(old(View()), inserts[..i])
      {
        hide Step;
        var e := inserts[i];
        assert e in inserts;
        assert inserts[..i + 1] == inserts[..i] + [e];
        RunSplits(old(View()), inserts[..i], [e]);
        RunOne(View(), e);
        var ok := Request(e.id, e.requestedAt, e.topics);
      }
      assert inserts[..|inserts|] == inserts;
    }
  }

  lemma RunOne(s: State, e: Event)
    ensures Run(s, [e]) == Step(s, e)
  {
    assert [e][1..] == [];
  }
}
