/** Time stamps in the format of RFC 3339, to the second and in UTC: comparing them as strings is
    comparing them by the clock. */
module Stamps {
  import opened Ingest
  import opened IngestRuns
  import opened Lists
  import opened Records
  import opened Retention
  import opened Text

  datatype Instant = Instant(year: nat, month: nat, day: nat, hour: nat, minute: nat, second: nat)

  predicate Proper(t: Instant) {
    t.year < 10000 && t.month < 100 && t.day < 100 && t.hour < 100 && t.minute < 100 && t.second < 100
  }

  function Two(n: nat): string
    requires n < 100
  {
    [Digit(n / 10), Digit(n % 10)]
  }

  function Stamp(t: Instant): string
    requires Proper(t)
  {
    Two(t.year / 100) + Two(t.year % 100) + "-" + Two(t.month) + "-" + Two(t.day) + "T"
    + Two(t.hour) + ":" + Two(t.minute) + ":" + Two(t.second) + "Z"
  }

  /** Earlier by the calendar and the clock. */
  predicate Earlier(a: Instant, b: Instant) {
    if a.year != b.year then a.year < b.year
    else if a.month != b.month then a.month < b.month
    else if a.day != b.day then a.day < b.day
    else if a.hour != b.hour then a.hour < b.hour
    else if a.minute != b.minute then a.minute < b.minute
    else a.second < b.second
  }

  lemma DigitsCompare(m: nat, n: nat)
    requires m < 10 && n < 10
    ensures (Digit(m) < Digit(n) <==> m < n) && (Digit(m) == Digit(n) <==> m == n)
  {
  }

  lemma TwoCompares(m: nat, n: nat)
    requires m < 100 && n < 100
    ensures (Less(Two(m), Two(n)) <==> m < n) && (Two(m) == Two(n) <==> m == n) && |Two(m)| == 2
  {
    DigitsCompare(m / 10, n / 10);
    DigitsCompare(m % 10, n % 10);
    hide Digit;
    var a, b := Two(m), Two(n);
    assert a[1..] == [Digit(m % 10)] && b[1..] == [Digit(n % 10)];
    assert a[1..][1..] == "" && b[1..][1..] == "";
    assert Less(a[1..], b[1..]) <==> Digit(m % 10) < Digit(n % 10);
  }

  /** Two digits, a mark, and more. */
  lemma FieldCompares(m: nat, n: nat, mark: string, c: string, d: string)
    requires m < 100 && n < 100
    ensures Less(Two(m) + mark + c, Two(n) + mark + d) <==> m < n || (m == n && Less(c, d))
  {
    TwoCompares(m, n);
    hide Two;
    LessJoined(Two(m) + mark, Two(n) + mark, c, d);
    LessJoined(Two(m), Two(n), mark, mark);
    LessTotal(mark, mark);
    hide Less;
    if Two(m) + mark == Two(n) + mark {
      assert (Two(m) + mark)[..2] == Two(m) && (Two(n) + mark)[..2] == Two(n);
    }
  }

  /** MAIN RESULT.  Of two stamps the lesser string is the earlier instant. */
  lemma StampsInClockOrder(a: Instant, b: Instant)
    requires Proper(a) && Proper(b)
    ensures Less(Stamp(a), Stamp(b)) <==> Earlier(a, b)
  {
    hide Two, Less;
    var second, second' := Two(a.second) + "Z" + "", Two(b.second) + "Z" + "";
    var minute, minute' := Two(a.minute) + ":" + second, Two(b.minute) + ":" + second';
    var hour, hour' := Two(a.hour) + ":" + minute, Two(b.hour) + ":" + minute';
    var day, day' := Two(a.day) + "T" + hour, Two(b.day) + "T" + hour';
    var month, month' := Two(a.month) + "-" + day, Two(b.month) + "-" + day';
    var year, year' := Two(a.year % 100) + "-" + month, Two(b.year % 100) + "-" + month';
    FieldCompares(a.second, b.second, "Z", "", "");
    LessTotal("", "");
    FieldCompares(a.minute, b.minute, ":", second, second');
    FieldCompares(a.hour, b.hour, ":", minute, minute');
    FieldCompares(a.day, b.day, "T", hour, hour');
    FieldCompares(a.month, b.month, "-", day, day');
    FieldCompares(a.year % 100, b.year % 100, "-", month, month');
    FieldCompares(a.year / 100, b.year / 100, "", year, year');
    assert Stamp(a) == Two(a.year / 100) + "" + year && Stamp(b) == Two(b.year / 100) + "" + year';
  }

  ghost predicate Gone(messages: seq<Message>, id: string) {
    forall x :: x in messages ==> x.id != id
  }

  /** MAIN RESULT.  In every run of records stamped by the clock, the limit is filled if enough were
      accepted, and no dropped record is later than a retained one. */
  lemma LatestAreRetained(
      limit: int, states: seq<State>, events: seq<Event>, committed: seq<bool>, at: string -> Instant, i: nat)
    requires IsRun(limit, states, events, committed) && i < |states| && forall id :: Proper(at(id))
    requires forall k :: 0 <= k < |events| && events[k].Accept? ==>
               events[k].msg.timestamp == Stamp(at(events[k].msg.id))
    ensures var s := states[i];
            && |s.doc.messages| == (if limit > 0 && |s.accepted| > limit then limit else |s.accepted|)
            && (forall m :: m in s.doc.messages ==> m.id in s.accepted)
            && (forall id, m :: id in s.accepted && Gone(s.doc.messages, id) && m in s.doc.messages ==>
                  !Earlier(at(m.id), at(id)))
            && (forall j, k :: 0 <= j < k < |s.doc.messages| ==>
                  !Earlier(at(s.doc.messages[j].id), at(s.doc.messages[k].id)))
  {
    RetentionIsTopK(limit, states, events, committed, id => if Proper(at(id)) then Stamp(at(id)) else "", i);
    var s := states[i];
    forall m | m in s.doc.messages ensures m.id in s.accepted && m.timestamp == Stamp(at(m.id)) {
    }
    forall id, m | id in s.accepted && Gone(s.doc.messages, id) && m in s.doc.messages
      ensures !Earlier(at(m.id), at(id))
    {
      assert id !in Ids(s.doc.messages, MessageId);
      StampsInClockOrder(at(m.id), at(id));
    }
    forall j, k | 0 <= j < k < |s.doc.messages|
      ensures !Earlier(at(s.doc.messages[j].id), at(s.doc.messages[k].id))
    {
      assert s.doc.messages[j] in s.doc.messages && s.doc.messages[k] in s.doc.messages;
      assert !Newer(s.doc.messages[k], s.doc.messages[j]);
      StampsInClockOrder(at(s.doc.messages[j].id), at(s.doc.messages[k].id));
    }
  }
}
