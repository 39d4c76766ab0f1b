/** Bounded retention of messages, and the effect of redelivery. */
module Retention {
  import opened Ordering
  import opened Text
  import opened Lists
  import opened Records
  import opened Ingest
  import opened IngestRuns

  // ---------- what is retained ----------

  /** Every delivery of a record carries the same timestamp. */
  ghost predicate FixedStamps(events: seq<Event>, stamp: string -> string) {
    forall i :: 0 <= i < |events| && events[i].Accept? ==> events[i].msg.timestamp == stamp(events[i].msg.id)
  }

  /** As many of the accepted records as the limit allows are retained, newest first, and no
      dropped record is newer than a retained one. */
  ghost predicate NewestRetained(limit: int, s: State) {
    && DistinctIds(s.doc.messages, MessageId) && InOrder(s.doc.messages, Newer)
    && |s.doc.messages| == (if limit > 0 && |s.accepted| > limit then limit else |s.accepted|)
    && (forall m :: m in s.doc.messages ==> m.id in s.accepted && s.accepted[m.id] == m.timestamp)
    && (forall id, m :: id in s.accepted && id !in Ids(s.doc.messages, MessageId) && m in s.doc.messages ==>
          !Less(m.timestamp, s.accepted[id]))
  }

  lemma AllOrFull(limit: int, s: State, id: string)
    requires NewestRetained(limit, s) && id in s.accepted && id !in Ids(s.doc.messages, MessageId)
    ensures limit > 0 && |s.doc.messages| == limit
  {
    var ids := Ids(s.doc.messages, MessageId);
    CountIds(s.doc.messages, MessageId);
    assert ids <= s.accepted.Keys - {id};
    SubsetSize(ids, s.accepted.Keys - {id});
  }

  lemma SubsetSize<T>(a: set<T>, b: set<T>)
    requires a <= b
    ensures |a| <= |b|
  {
    assert b == a + (b - a);
  }

  lemma AcceptKeepsNewest(limit: int, s: State, msg: Message, payload: Payload, s': State, stamp: string -> string)
    requires NewestRetained(limit, s) && Commits(limit, s, Accept(msg, payload), s')
    requires msg.timestamp == stamp(msg.id) && forall id :: id in s.accepted ==> s.accepted[id] == stamp(id)
    ensures NewestRetained(limit, s') && forall id :: id in s'.accepted ==> s'.accepted[id] == stamp(id)
  {
    hide Commits, Retained, Ids;
    var before, kept := s.doc.messages, s'.doc.messages;
    AcceptedMessages(limit, s, msg, payload, s');
    if msg.id in Ids(before, MessageId) {
      SameMessages(limit, s, s');
    } else {
      RetainedMessages(limit, before, msg, kept);
      KeptSize(limit, s, msg, kept, s'.accepted);
      forall id, m | id in s'.accepted && id !in Ids(kept, MessageId) && m in kept
        ensures !Less(m.timestamp, s'.accepted[id])
      {
        DroppedIsOld(limit, s, msg, kept, id, m, stamp);
      }
      hide InOrder, DistinctIds, Less;
      forall m | m in kept ensures m.id in s'.accepted && s'.accepted[m.id] == m.timestamp {
        assert m in before + [msg];
      }
    }
  }

  lemma AcceptedMessages(limit: int, s: State, msg: Message, payload: Payload, s': State)
    requires Commits(limit, s, Accept(msg, payload), s')
    ensures if msg.id in Ids(s.doc.messages, MessageId)
            then s'.doc.messages == s.doc.messages && s'.accepted == s.accepted
            else Retained(limit, s.doc.messages + [msg], s'.doc.messages)
                 && s'.accepted == s.accepted[msg.id := msg.timestamp]
  {
    hide Ids, Retained, UpsertFlow, UpsertTrace, UpsertTask;
  }

  lemma KeptSize(limit: int, s: State, msg: Message, kept: seq<Message>, accepted: map<string, string>)
    requires NewestRetained(limit, s) && msg.id !in Ids(s.doc.messages, MessageId)
    requires |kept| == if limit > 0 && |s.doc.messages| + 1 > limit then limit else |s.doc.messages| + 1
    requires accepted == s.accepted[msg.id := msg.timestamp]
    ensures |kept| == if limit > 0 && |accepted| > limit then limit else |accepted|
  {
    if msg.id in s.accepted {
      AllOrFull(limit, s, msg.id);
      assert accepted.Keys == s.accepted.Keys;
      assert |accepted| == |accepted.Keys| && |s.accepted| == |s.accepted.Keys|;
    } else {
      assert accepted.Keys == s.accepted.Keys + {msg.id};
      assert |accepted| == |accepted.Keys| && |s.accepted| == |s.accepted.Keys|;
    }
  }

  /** A record that is not among the kept ones was dropped now, or was old already. */
  lemma DroppedIsOld(
      limit: int, s: State, msg: Message, kept: seq<Message>, id: string, m: Message, stamp: string -> string)
    requires NewestRetained(limit, s) && msg.id !in Ids(s.doc.messages, MessageId)
    requires Retained(limit, s.doc.messages + [msg], kept)
    requires msg.timestamp == stamp(msg.id) && forall id :: id in s.accepted ==> s.accepted[id] == stamp(id)
    requires (id == msg.id || id in s.accepted) && id !in Ids(kept, MessageId) && m in kept
    ensures !Less(m.timestamp, stamp(id))
  {
    var before := s.doc.messages;
    var all := before + [msg];
    RetainedMessages(limit, before, msg, kept);
    LessIsOrder();
    hide Retained, InOrder, DistinctIds, Less;
    if id == msg.id {
      assert msg in all && msg !in kept && !Newer(msg, m);
    } else if d :| d in before && d.id == id {
      assert d in all && d !in kept && !Newer(d, m);
    } else {
      assert id !in Ids(before, MessageId);
      AllOrFull(limit, s, id);
      if m in before {
        assert !Less(m.timestamp, s.accepted[id]);
      } else {
        var d := SomeoneDropped(before, msg, kept);
        assert !Newer(d, m) && !Less(d.timestamp, s.accepted[id]);
      }
    }
  }

  /** If the new message is kept by a full list, an old one went. */
  lemma SomeoneDropped(before: seq<Message>, msg: Message, kept: seq<Message>) returns (d: Message)
    requires DistinctIds(before, MessageId) && DistinctIds(kept, MessageId) && |kept| == |before|
    requires msg in kept && msg.id !in Ids(before, MessageId)
    ensures d in before && d !in kept
  {
    if forall d :: d in before ==> d in kept {
      CountIds(before, MessageId);
      CountIds(kept, MessageId);
      assert Ids(before, MessageId) + {msg.id} <= Ids(kept, MessageId);
      SubsetSize(Ids(before, MessageId) + {msg.id}, Ids(kept, MessageId));
      assert false;
    }
    d :| d in before && d !in kept;
  }

  lemma ReloadKeepsNewest(limit: int, s: State, lostFlows: set<string>, lostTraces: set<string>, s': State)
    requires NewestRetained(limit, s) && ReloadStep(s.doc, lostFlows, lostTraces, s'.doc)
    requires s'.accepted == s.accepted
    ensures NewestRetained(limit, s')
  {
    Reordered(s.doc.messages, s'.doc.messages, MessageId);
    SameMembers(s.doc.messages, s'.doc.messages);
    hide InOrder, DistinctIds, Less;
    assert Ids(s'.doc.messages, MessageId) == Ids(s.doc.messages, MessageId);
  }

  /** MAIN RESULT.  In every run in which each record keeps its timestamp, whatever is redelivered
      and however the loops interleave, the retained messages are the newest of all accepted ones. */
  lemma {:induction false} RetentionIsTopK(
      limit: int, states: seq<State>, events: seq<Event>, committed: seq<bool>, stamp: string -> string, i: nat)
    requires IsRun(limit, states, events, committed) && FixedStamps(events, stamp) && i < |states|
    ensures NewestRetained(limit, states[i])
    ensures forall id :: id in states[i].accepted ==> states[i].accepted[id] == stamp(id)
  {
    if i > 0 {
      var s, s', e := states[i - 1], states[i], events[i - 1];
      RetentionIsTopK(limit, states, events, committed, stamp, i - 1);
      RunStep(limit, states, events, committed, i - 1);
      hide IsRun, NewestRetained, Commits;
      if committed[i - 1] {
        CommitKeepsNewest(limit, s, e, s', stamp);
      }
    } else {
      assert states[0] == START;
    }
  }

  lemma CommitKeepsNewest(limit: int, s: State, e: Event, s': State, stamp: string -> string)
    requires NewestRetained(limit, s) && Commits(limit, s, e, s')
    requires e.Accept? ==> e.msg.timestamp == stamp(e.msg.id)
    requires forall id :: id in s.accepted ==> s.accepted[id] == stamp(id)
    ensures NewestRetained(limit, s') && forall id :: id in s'.accepted ==> s'.accepted[id] == stamp(id)
  {
    hide NewestRetained, AcceptStep, ReloadStep;
    match e
    case Accept(msg, payload) => AcceptKeepsNewest(limit, s, msg, payload, s', stamp);
    case Reload(flows, traces) => ReloadKeepsNewest(limit, s, flows, traces, s');
    case Reject(_, _) => SameMessages(limit, s, s');
    case Heartbeat =>
  }

  lemma SameMessages(limit: int, s: State, s': State)
    requires NewestRetained(limit, s) && s'.doc.messages == s.doc.messages && s'.accepted == s.accepted
    ensures NewestRetained(limit, s')
  {
  }

  // ---------- the same, against a list that never drops anything ----------

  function Elements(a: seq<string>): set<string> {
    set k | k in a
  }

  lemma Pigeonhole(a: seq<string>, b: seq<string>) returns (x: string)
    requires NoDuplicates(a) && |a| > |b|
    ensures x in a && x !in b
  {
    var sa, sb := Elements(a), Elements(b);
    SetOfList(a);
    SetOfList(b);
    if sa <= sb {
      SubsetSize(sa, sb);
      assert false;
    }
    x :| x in sa && x !in sb;
  }

  lemma {:induction false} SetOfList(a: seq<string>)
    ensures |Elements(a)| <= |a|
    ensures NoDuplicates(a) ==> |Elements(a)| == |a|
  {
    if a != [] {
      SetOfList(a[1..]);
      assert a == [a[0]] + a[1..];
      assert Elements(a) == Elements(a[1..]) + {a[0]};
    }
  }

  ghost predicate NewestFirst(ids: seq<string>, stamp: string -> string) {
    forall i, j :: 0 <= i < j < |ids| ==> !Less(stamp(ids[i]), stamp(ids[j]))
  }

  lemma AtOrBeyond(p: seq<string>, x: string, i: nat) returns (j: nat)
    requires x in p && i <= |p| && x !in p[..i]
    ensures i <= j < |p| && p[j] == x
  {
    assert p == p[..i] + p[i..];
    var k :| 0 <= k < |p[i..]| && p[i..][k] == x;
    j := i + k;
  }

  /** A choice of the newest, listed newest first, has the same timestamps as the front of any
      newest-first listing of everything. */
  lemma SameStamps(p: seq<string>, q: seq<string>, stamp: string -> string, i: nat)
    requires NoDuplicates(p) && NoDuplicates(q) && NewestFirst(p, stamp) && NewestFirst(q, stamp)
    requires forall x :: x in p ==> x in q
    requires forall x, y :: x in q && x !in p && y in p ==> !Less(stamp(y), stamp(x))
    requires i < |p| <= |q|
    ensures stamp(p[i]) == stamp(q[i])
  {
    LessIsOrder();
    LessTotal(stamp(p[i]), stamp(q[i]));
    hide Less;
    if Less(stamp(p[i]), stamp(q[i])) {
      var x := Pigeonhole(q[..i + 1], p[..i]);
      var k :| 0 <= k <= i && q[k] == x;
      assert k < i ==> !Less(stamp(q[k]), stamp(q[i]));
      if x in p {
        var j := AtOrBeyond(p, x, i);
      }
      assert false;
    }
    if Less(stamp(q[i]), stamp(p[i])) {
      var x := Pigeonhole(p[..i + 1], q[..i]);
      var k :| 0 <= k <= i && p[k] == x;
      assert k < i ==> !Less(stamp(p[k]), stamp(p[i]));
      assert x in p;
      var j := AtOrBeyond(q, x, i);
      assert false;
    }
  }

  /** MAIN RESULT.  Take any newest-first listing of all records ever accepted: the retained
      messages have the timestamps of its front, position by position. */
  lemma RetainedIsFrontOfHistory(limit: int, s: State, stamp: string -> string, history: seq<string>, i: nat)
    requires NewestRetained(limit, s) && forall id :: id in s.accepted ==> s.accepted[id] == stamp(id)
    requires NoDuplicates(history) && NewestFirst(history, stamp)
    requires forall id :: id in history <==> id in s.accepted
    requires i < |s.doc.messages|
    ensures |s.doc.messages| <= |history| && s.doc.messages[i].timestamp == stamp(history[i])
  {
    var messages := s.doc.messages;
    var ids := seq(|messages|, k requires 0 <= k < |messages| => messages[k].id);
    SetOfList(history);
    assert Elements(history) == s.accepted.Keys;
    forall k | 0 <= k < |messages| ensures messages[k].timestamp == stamp(ids[k]) {
      assert messages[k] in messages;
    }
    assert NewestFirst(ids, stamp) by {
      forall a, b | 0 <= a < b < |ids| ensures !Less(stamp(ids[a]), stamp(ids[b])) {
        assert !Newer(messages[b], messages[a]);
      }
    }
    forall m | m in messages ensures m.id in ids {
      var j :| 0 <= j < |messages| && messages[j] == m;
      assert ids[j] == m.id;
    }
    forall x, y | x in history && x !in ids && y in ids ensures !Less(stamp(y), stamp(x)) {
      var k :| 0 <= k < |ids| && ids[k] == y;
      assert messages[k] in messages;
    }
    SameStamps(ids, history, stamp, i);
  }
}
