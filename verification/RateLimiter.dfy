/** The per-IP token bucket in front of the collector API, and the loop that
    forgets idle buckets.

    Arithmetic is over `real`; instants and durations are seconds.  A schedule is
    a list of events in the order in which the mutex lets them through, so their
    instants never decrease.
 */
module RateLimiter {

  datatype Settings = Settings(burst: int, rate: real, staleAge: real)

  datatype Bucket = Bucket(tokens: real, lastSeen: real)

  datatype Event = Request(ip: string, at: real) | Evict(at: real)

  /** What the caller of the constructor supplies: a refill rate that is not
      negative and a ticker period that the runtime accepts. */
  predicate Usable(c: Settings) {
    c.rate >= 0.0 && c.staleAge > 0.0
  }

  function Min(x: real, y: real): real {
    if x <= y then x else y
  }

  /** The tokens earned in a span of time; the laws below spell the product out. */
  function Earned(c: Settings, span: real): real {
    c.rate * span
  }

  lemma EarnedAdds(c: Settings, x: real, y: real, z: real)
    ensures Earned(c, z - x) == Earned(c, y - x) + Earned(c, z - y)
  {
    assert z - x == (y - x) + (z - y);
  }

  lemma EarnedNothing(c: Settings)
    ensures Earned(c, 0.0) == 0.0
  {
  }

  lemma EarnedGrows(c: Settings, x: real, y: real)
    requires Usable(c) && x <= y
    ensures 0.0 <= Earned(c, y - x)
  {
  }

  // ---------- one bucket ----------

  function Refilled(c: Settings, b: Bucket, now: real): real {
    Min(b.tokens + Earned(c, now - b.lastSeen), c.burst as real)
  }

  function Take(c: Settings, b: Bucket, now: real): (Bucket, bool) {
    var t := Refilled(c, b, now);
    if t < 1.0 then (Bucket(t, now), false) else (Bucket(t - 1.0, now), true)
  }

  lemma EarnedIs(c: Settings, span: real)
    ensures Earned(c, span) == c.rate * span == span * c.rate
  {
  }

  lemma TakeGain(c: Settings, b: Bucket, now: real, gain: real)
    requires gain == Earned(c, now - b.lastSeen)
    ensures var held := if b.tokens + gain > c.burst as real then c.burst as real else b.tokens + gain;
            Take(c, b, now) == if held < 1.0 then (Bucket(held, now), false) else (Bucket(held - 1.0, now), true)
  {
    hide Earned;
  }

  /** One request: the bucket is refilled by rate * elapsed, up to burst, and gives a token if it has one. */
  lemma TakeIs(c: Settings, b: Bucket, now: real, gain: real)
    requires gain == c.rate * (now - b.lastSeen)
    ensures var held := if b.tokens + gain > c.burst as real then c.burst as real else b.tokens + gain;
            Take(c, b, now) == if held < 1.0 then (Bucket(held, now), false) else (Bucket(held - 1.0, now), true)
  {
    hide Take;
    TakeGain(c, b, now, gain);
  }

  /** The answers one bucket gives to requests at the given instants. */
  function Serve(c: Settings, b: Bucket, times: seq<real>): (answers: seq<bool>)
    ensures |answers| == |times|
    decreases |times|
  {
    if times == [] then [] else
    var (b', ok) := Take(c, b, times[0]);
    [ok] + Serve(c, b', times[1..])
  }

  // ---------- the whole limiter ----------

  function Lookup(c: Settings, m: map<string, Bucket>, ip: string, now: real): Bucket {
    if ip in m then m[ip] else Bucket(c.burst as real, now)
  }

  function Survivors(c: Settings, m: map<string, Bucket>, now: real): map<string, Bucket> {
    map ip | ip in m && !(m[ip].lastSeen < now - c.staleAge) :: m[ip]
  }

  /** One answer per event (an eviction answers `false`); `evicting` says whether
      eviction events do anything. */
  function Run(c: Settings, m: map<string, Bucket>, es: seq<Event>, evicting: bool): (answers: seq<bool>)
    ensures |answers| == |es|
    decreases |es|
  {
    if es == [] then [] else
    match es[0]
    case Request(ip, at) =>
      var (b, ok) := Take(c, Lookup(c, m, ip, at), at);
      [ok] + Run(c, m[ip := b], es[1..], evicting)
    case Evict(at) =>
      [false] + Run(c, if evicting then Survivors(c, m, at) else m, es[1..], evicting)
  }

  ghost predicate Schedule(es: seq<Event>) {
    forall i, j :: 0 <= i < j < |es| ==> es[i].at <= es[j].at
  }

  /** The limiter itself. */
  class Limiter {
    const settings: Settings
    var buckets: map<string, Bucket>

    constructor (burst: int, perSecond: real, staleAge: real)
      ensures settings == Settings(burst, perSecond, staleAge) && buckets == map[]
    {
      settings := Settings(burst, perSecond, staleAge);
      buckets := map[];
    }

    method Allow(ip: string, now: real) returns (ok: bool)
      modifies this
      ensures var (b, a) := Take(settings, Lookup(settings, old(buckets), ip, now), now);
              ok == a && buckets == old(buckets)[ip := b]
    {
      hide Earned, Take;
      var b: Bucket;
      if ip in buckets {
        b := buckets[ip];
      } else {
        b := Bucket(settings.burst as real, now);
        buckets := buckets[ip := b];
      }
      var elapsed := now - b.lastSeen;
      var gain := elapsed * settings.rate;
      assert gain == Earned(settings, elapsed) by { EarnedIs(settings, elapsed); }
      TakeGain(settings, b, now, gain);
      assert b == Lookup(settings, old(buckets), ip, now);
      b := b.(tokens := b.tokens + gain);
      if b.tokens > settings.burst as real {
        b := b.(tokens := settings.burst as real);
      }
      b := b.(lastSeen := now);
      if b.tokens < 1.0 {
        buckets := buckets[ip := b];
        assert buckets == old(buckets)[ip := b];
        return false;
      }
      b := b.(tokens := b.tokens - 1.0);
      buckets := buckets[ip := b];
      assert buckets == old(buckets)[ip := b];
      return true;
    }

    /** One tick of the eviction loop. */
    method EvictStale(now: real)
      modifies this
      ensures buckets == Survivors(settings, old(buckets), now)
      ensures forall ip :: ip in buckets <==> ip in old(buckets) && old(buckets)[ip].lastSeen >= now - settings.staleAge
      ensures forall ip :: ip in buckets ==> buckets[ip] == old(buckets)[ip]
    {
      var cutoff := now - settings.staleAge;
      var todo := buckets.Keys;
      while todo != {}
        invariant todo <= old(buckets).Keys
        invariant todo <= buckets.Keys <= old(buckets).Keys
        invariant forall ip :: ip in buckets ==> buckets[ip] == old(buckets)[ip]
        invariant forall ip :: ip in old(buckets) && ip !in todo ==>
                    (ip in buckets <==> !(old(buckets)[ip].lastSeen < cutoff))
        decreases todo
      {
        var ip :| ip in todo;
        if buckets[ip].lastSeen < cutoff {
          buckets := buckets - {ip};
        }
        todo := todo - {ip};
      }
    }
  }

  // ---------- the limiter allows exactly what the rate bound permits ----------

  function Granted(answers: seq<bool>): nat {
    if answers == [] then 0 else (if answers[0] then 1 else 0) + Granted(answers[1..])
  }

  lemma {:induction false} GrantedSnoc(answers: seq<bool>, last: bool)
    ensures Granted(answers + [last]) == Granted(answers) + if last then 1 else 0
  {
    if answers != [] {
      assert (answers + [last])[1..] == answers[1..] + [last];
      GrantedSnoc(answers[1..], last);
    } else {
      assert [last][1..] == [];
    }
  }

  /** What request `i` could spend if only requests from `j` on had been served, from a full bucket. */
  ghost function Budget(c: Settings, times: seq<real>, answers: seq<bool>, j: nat, i: nat): real
    requires j <= i < |times| && i <= |answers|
  {
    c.burst as real + Earned(c, times[i] - times[j]) - Granted(answers[j..i]) as real
  }

  ghost function Budgets(c: Settings, times: seq<real>, answers: seq<bool>, i: nat): seq<real>
    requires i < |times| && i <= |answers|
  {
    seq(i + 1, j requires 0 <= j <= i => Budget(c, times, answers, j, i))
  }

  ghost predicate Least(xs: seq<real>, x: real) {
    (exists j :: 0 <= j < |xs| && xs[j] == x) && forall j :: 0 <= j < |xs| ==> x <= xs[j]
  }

  function Level(c: Settings, b: Bucket, times: seq<real>, i: nat): (level: real)
    requires i < |times|
    decreases i
  {
    if i == 0 then Refilled(c, b, times[0])
    else Level(c, Take(c, b, times[0]).0, times[1..], i - 1)
  }

  lemma {:induction false} LevelDecides(c: Settings, b: Bucket, times: seq<real>, i: nat)
    requires i < |times|
    ensures Serve(c, b, times)[i] <==> Level(c, b, times, i) >= 1.0
    decreases i
  {
    if i > 0 {
      LevelDecides(c, Take(c, b, times[0]).0, times[1..], i - 1);
    }
  }

  lemma {:induction false} LevelStep(c: Settings, b: Bucket, times: seq<real>, i: nat)
    requires i + 1 < |times|
    ensures var spent := if Serve(c, b, times)[i] then 1.0 else 0.0;
            Level(c, b, times, i + 1) ==
            Min(Level(c, b, times, i) - spent + Earned(c, times[i + 1] - times[i]), c.burst as real)
    decreases i
  {
    hide Earned;
    if i > 0 {
      var b' := Take(c, b, times[0]).0;
      LevelStep(c, b', times[1..], i - 1);
      assert Serve(c, b, times)[i] == Serve(c, b', times[1..])[i - 1];
    } else {
      var (b', ok) := Take(c, b, times[0]);
      assert Level(c, b, times, 1) == Level(c, b', times[1..], 0) == Refilled(c, b', times[1]);
    }
  }

  lemma BudgetStep(c: Settings, times: seq<real>, answers: seq<bool>, j: nat, i: nat)
    requires j <= i && i + 1 < |times| && i < |answers|
    ensures Budget(c, times, answers, j, i + 1) ==
            Budget(c, times, answers, j, i) - (if answers[i] then 1.0 else 0.0) + Earned(c, times[i + 1] - times[i])
  {
    assert answers[j..i + 1] == answers[j..i] + [answers[i]];
    GrantedSnoc(answers[j..i], answers[i]);
    EarnedAdds(c, times[j], times[i], times[i + 1]);
  }

  lemma LeastShifted(xs: seq<real>, x: real, ys: seq<real>, delta: real)
    requires Least(xs, x) && |ys| == |xs| + 1
    requires forall j :: 0 <= j < |xs| ==> ys[j] == xs[j] + delta
    ensures Least(ys, Min(x + delta, ys[|xs|]))
  {
    var j :| 0 <= j < |xs| && xs[j] == x;
    assert ys[j] == x + delta;
  }

  /** The bucket's level before request `i` is the least of all budgets. */
  lemma {:induction false} LevelIsLeastBudget(c: Settings, times: seq<real>, i: nat)
    requires i < |times|
    ensures var full := Bucket(c.burst as real, times[0]);
            Least(Budgets(c, times, Serve(c, full, times), i), Level(c, full, times, i))
    decreases i
  {
    hide Earned;
    var full := Bucket(c.burst as real, times[0]);
    var answers := Serve(c, full, times);
    assert answers[i..i] == [];
    var now := Budgets(c, times, answers, i);
    EarnedNothing(c);
    assert now[i] == c.burst as real;
    if i > 0 {
      var before := Budgets(c, times, answers, i - 1);
      var delta := Earned(c, times[i] - times[i - 1]) - (if answers[i - 1] then 1.0 else 0.0);
      LevelIsLeastBudget(c, times, i - 1);
      LevelStep(c, full, times, i - 1);
      forall j | 0 <= j < |before| ensures now[j] == before[j] + delta {
        BudgetStep(c, times, answers, j, i - 1);
      }
      LeastShifted(before, Level(c, full, times, i - 1), now, delta);
    }
  }

  lemma GrantsByBudget(c: Settings, times: seq<real>, i: nat)
    requires i < |times|
    ensures var answers := Serve(c, Bucket(c.burst as real, times[0]), times);
            answers[i] <==> forall j: nat :: j <= i ==> Budget(c, times, answers, j, i) >= 1.0
  {
    hide Earned;
    var full := Bucket(c.burst as real, times[0]);
    var answers := Serve(c, full, times);
    LevelIsLeastBudget(c, times, i);
    LevelDecides(c, full, times, i);
    var budgets := Budgets(c, times, answers, i);
    forall j: nat | j <= i ensures budgets[j] == Budget(c, times, answers, j, i) {
    }
    hide Budget;
    assert answers[i] <==> forall j :: 0 <= j < |budgets| ==> budgets[j] >= 1.0;
    if answers[i] {
      forall j: nat | j <= i ensures Budget(c, times, answers, j, i) >= 1.0 {
        assert budgets[j] == Budget(c, times, answers, j, i);
      }
    }
  }

  lemma BudgetIs(c: Settings, times: seq<real>, answers: seq<bool>, j: nat, i: nat)
    requires j <= i < |times| && i <= |answers|
    ensures Budget(c, times, answers, j, i) >= 1.0 <==>
            Granted(answers[j..i]) as real + 1.0 <= c.burst as real + c.rate * (times[i] - times[j])
  {
    hide Granted;
  }

  /** MAIN RESULT.  A fresh bucket grants a request if and only if granting it keeps
      every window that ends at this request within burst + rate * length. */
  lemma GrantsExactlyWithinBound(c: Settings, times: seq<real>, i: nat)
    requires i < |times|
    ensures var answers := Serve(c, Bucket(c.burst as real, times[0]), times);
            answers[i] <==>
            forall j: nat :: j <= i ==>
              Granted(answers[j..i]) as real + 1.0 <= c.burst as real + c.rate * (times[i] - times[j])
  {
    var answers := Serve(c, Bucket(c.burst as real, times[0]), times);
    GrantsByBudget(c, times, i);
    forall j: nat | j <= i
      ensures Budget(c, times, answers, j, i) >= 1.0 <==>
              Granted(answers[j..i]) as real + 1.0 <= c.burst as real + c.rate * (times[i] - times[j])
    {
      BudgetIs(c, times, answers, j, i);
    }
    hide Budget, Granted, Serve;
  }

  // ---------- one client of the whole limiter is one bucket ----------

  /** The instants at which `ip` asks, and the answers it gets. */
  function TimesOf(es: seq<Event>, ip: string): seq<real> {
    if es == [] then []
    else (if es[0].Request? && es[0].ip == ip then [es[0].at] else []) + TimesOf(es[1..], ip)
  }

  function AnswersTo(es: seq<Event>, answers: seq<bool>, ip: string): seq<bool>
    requires |es| == |answers|
  {
    if es == [] then []
    else (if es[0].Request? && es[0].ip == ip then [answers[0]] else []) + AnswersTo(es[1..], answers[1..], ip)
  }

  /** Without evictions every client is served by a bucket of its own, whatever the others do. */
  lemma {:induction false} ClientsAreIndependent(c: Settings, m: map<string, Bucket>, es: seq<Event>, ip: string)
    ensures var times := TimesOf(es, ip);
            times != [] ==>
              AnswersTo(es, Run(c, m, es, false), ip) == Serve(c, Lookup(c, m, ip, times[0]), times)
    ensures TimesOf(es, ip) == [] ==> AnswersTo(es, Run(c, m, es, false), ip) == []
    decreases |es|
  {
    hide Earned;
    if es != [] {
      match es[0] {
        case Request(who, at) =>
          var b := Take(c, Lookup(c, m, who, at), at).0;
          ClientsAreIndependent(c, m[who := b], es[1..], ip);
          assert Run(c, m, es, false)[1..] == Run(c, m[who := b], es[1..], false);
          if who == ip {
            var rest := TimesOf(es[1..], ip);
            assert TimesOf(es, ip) == [at] + rest;
            assert TimesOf(es, ip)[1..] == rest;
            assert Serve(c, Lookup(c, m, ip, at), [at] + rest) ==
                   [Take(c, Lookup(c, m, ip, at), at).1] + Serve(c, b, rest);
            assert AnswersTo(es[1..], Run(c, m[who := b], es[1..], false), ip) == Serve(c, b, rest);
          } else {
            assert [] + TimesOf(es[1..], ip) == TimesOf(es[1..], ip);
          }
        case Evict(at) =>
          ClientsAreIndependent(c, m, es[1..], ip);
          assert [] + TimesOf(es[1..], ip) == TimesOf(es[1..], ip);
          assert Run(c, m, es, false)[1..] == Run(c, m, es[1..], false);
      }
    }
  }

  // ---------- a patient client ----------

  /** Each request comes late enough after the one before it for a token to be earned. */
  ghost predicate Spaced(c: Settings, times: seq<real>) {
    forall k :: 0 <= k < |times| - 1 ==> Earned(c, times[k + 1] - times[k]) >= 1.0
  }

  /** The bucket of `ip`, if there is one, has not gone negative and will have earned a token by `next`. */
  ghost predicate Rested(c: Settings, m: map<string, Bucket>, ip: string, next: real) {
    ip in m ==> m[ip].tokens >= 0.0 && Earned(c, next - m[ip].lastSeen) >= 1.0
  }

  lemma SpacedStep(c: Settings, m: map<string, Bucket>, ip: string, rest: seq<real>, at: real)
    requires c.burst >= 1 && Spaced(c, [at] + rest) && Rested(c, m, ip, at)
    ensures var (b, ok) := Take(c, Lookup(c, m, ip, at), at);
            ok && Spaced(c, rest) && (rest != [] ==> Rested(c, m[ip := b], ip, rest[0]))
  {
    hide Earned;
    EarnedNothing(c);
    var times := [at] + rest;
    forall k | 0 <= k < |rest| - 1 ensures Earned(c, rest[k + 1] - rest[k]) >= 1.0 {
      assert Earned(c, times[k + 1 + 1] - times[k + 1]) >= 1.0;
    }
    if rest != [] {
      assert Earned(c, times[0 + 1] - times[0]) >= 1.0;
    }
  }

  lemma {:induction false} SpacedFrom(c: Settings, m: map<string, Bucket>, es: seq<Event>, ip: string, evicting: bool)
    requires c.burst >= 1 && Spaced(c, TimesOf(es, ip))
    requires TimesOf(es, ip) != [] ==> Rested(c, m, ip, TimesOf(es, ip)[0])
    ensures forall ok :: ok in AnswersTo(es, Run(c, m, es, evicting), ip) ==> ok
    decreases |es|
  {
    hide Earned, Spaced, Take;
    if es != [] {
      match es[0]
      case Request(who, at) =>
        var (b, ok) := Take(c, Lookup(c, m, who, at), at);
        if who == ip {
          SpacedStep(c, m, ip, TimesOf(es[1..], ip), at);
        } else {
          assert [] + TimesOf(es[1..], ip) == TimesOf(es[1..], ip);
        }
        SpacedFrom(c, m[who := b], es[1..], ip, evicting);
        assert Run(c, m, es, evicting)[1..] == Run(c, m[who := b], es[1..], evicting);
      case Evict(at) =>
        var m' := if evicting then Survivors(c, m, at) else m;
        assert [] + TimesOf(es[1..], ip) == TimesOf(es[1..], ip);
        SpacedFrom(c, m', es[1..], ip, evicting);
        assert Run(c, m, es, evicting)[1..] == Run(c, m', es[1..], evicting);
    }
  }

  /** A client whose requests are at least 1/rate apart is never refused, whatever other clients
      do, and whether or not its bucket is forgotten in between. */
  lemma SpacedNeverRefused(c: Settings, es: seq<Event>, ip: string, evicting: bool)
    requires c.burst >= 1
    requires var times := TimesOf(es, ip);
             forall k :: 0 <= k < |times| - 1 ==> c.rate * (times[k + 1] - times[k]) >= 1.0
    ensures forall ok :: ok in AnswersTo(es, Run(c, map[], es, evicting), ip) ==> ok
  {
    assert Spaced(c, TimesOf(es, ip));
    SpacedFrom(c, map[], es, ip, evicting);
  }

  /** How many requests of `ip` were granted at an instant in [t0, t1]. */
  function GrantedWithin(es: seq<Event>, answers: seq<bool>, ip: string, t0: real, t1: real): nat
    requires |es| == |answers|
  {
    if es == [] then 0
    else (if es[0].Request? && es[0].ip == ip && answers[0] && t0 <= es[0].at <= t1 then 1 else 0)
         + GrantedWithin(es[1..], answers[1..], ip, t0, t1)
  }

  /** The tokens `ip` could spend at `now`, before any grant. */
  ghost function Credit(c: Settings, m: map<string, Bucket>, ip: string, now: real): real {
    Refilled(c, Lookup(c, m, ip, now), now)
  }

  ghost predicate Sane(c: Settings, m: map<string, Bucket>, now: real) {
    forall ip :: ip in m ==> m[ip].lastSeen <= now && 0.0 <= m[ip].tokens <= c.burst as real
  }

  lemma TakeStaysSane(c: Settings, m: map<string, Bucket>, ip: string, now: real)
    requires Usable(c) && c.burst >= 0 && Sane(c, m, now)
    ensures Sane(c, m[ip := Take(c, Lookup(c, m, ip, now), now).0], now)
  {
    var b := Lookup(c, m, ip, now);
    EarnedGrows(c, b.lastSeen, now);
    assert 0.0 <= Refilled(c, b, now) <= c.burst as real;
    assert 0.0 <= Take(c, b, now).0.tokens <= c.burst as real;
  }

  /** The buckets after these events. */
  function After(c: Settings, m: map<string, Bucket>, es: seq<Event>, evicting: bool): map<string, Bucket>
    decreases |es|
  {
    if es == [] then m
    else match es[0]
      case Request(ip, at) => After(c, m[ip := Take(c, Lookup(c, m, ip, at), at).0], es[1..], evicting)
      case Evict(at) => After(c, if evicting then Survivors(c, m, at) else m, es[1..], evicting)
  }

  /** On every schedule, with or without evictions, every bucket always holds between 0 and burst
      tokens, and was last seen no later than now. */
  lemma {:induction false} TokensStayInRange(
      c: Settings, m: map<string, Bucket>, es: seq<Event>, evicting: bool, start: real, now: real)
    requires Usable(c) && c.burst >= 0 && Schedule(es) && Sane(c, m, start) && start <= now
    requires forall e :: e in es ==> start <= e.at <= now
    ensures Sane(c, After(c, m, es, evicting), now)
    decreases |es|
  {
    if es != [] {
      var at := es[0].at;
      assert es[0] in es && Sane(c, m, at);
      forall e | e in es[1..] ensures at <= e.at <= now {
        assert e in es;
      }
      match es[0]
      case Request(ip, _) =>
        TakeStaysSane(c, m, ip, at);
        TokensStayInRange(c, m[ip := Take(c, Lookup(c, m, ip, at), at).0], es[1..], evicting, at, now);
      case Evict(_) =>
        TokensStayInRange(c, if evicting then Survivors(c, m, at) else m, es[1..], evicting, at, now);
    }
  }

  lemma {:induction false} WindowPotential(
      c: Settings, m: map<string, Bucket>, es: seq<Event>, ip: string, now: real, t0: real, t1: real)
    requires Usable(c) && c.burst >= 0 && Schedule(es) && t0 <= t1 && now <= t1
    requires es != [] ==> now <= es[0].at
    requires Sane(c, m, now)
    ensures GrantedWithin(es, Run(c, m, es, false), ip, t0, t1) as real <=
            if t0 <= now then Credit(c, m, ip, now) + Earned(c, t1 - now)
            else c.burst as real + Earned(c, t1 - t0)
    decreases |es|
  {
    hide Earned;
    EarnedGrows(c, Lookup(c, m, ip, now).lastSeen, now);
    EarnedGrows(c, now, t1);
    EarnedGrows(c, t0, t1);
    EarnedNothing(c);
    if es != [] {
      var at := es[0].at;
      assert Run(c, m, es, false)[1..] ==
        match es[0] {
          case Request(who, _) => Run(c, m[who := Take(c, Lookup(c, m, who, at), at).0], es[1..], false)
          case Evict(_) => Run(c, m, es[1..], false)
        };
      if at > t1 {
        NothingAfterWindow(es, Run(c, m, es, false), ip, t0, t1);
      } else {
        assert Sane(c, m, at);
        CreditGrows(c, m, ip, now, at);
        match es[0] {
          case Request(who, _) =>
            var (b, ok) := Take(c, Lookup(c, m, who, at), at);
            var m' := m[who := b];
            TakeStaysSane(c, m, who, at);
            WindowPotential(c, m', es[1..], ip, at, t0, t1);
            if who != ip {
              assert Credit(c, m', ip, at) == Credit(c, m, ip, at);
            }
          case Evict(_) =>
            WindowPotential(c, m, es[1..], ip, at, t0, t1);
        }
        if t0 <= now {
          EarnedAdds(c, now, at, t1);
        } else if t0 <= at {
          EarnedAdds(c, t0, at, t1);
          EarnedGrows(c, t0, at);
        }
      }
    }
  }

  lemma CreditGrows(c: Settings, m: map<string, Bucket>, ip: string, now: real, at: real)
    requires Usable(c) && now <= at
    ensures Credit(c, m, ip, at) <= Credit(c, m, ip, now) + Earned(c, at - now)
    ensures Credit(c, m, ip, at) <= c.burst as real
  {
    EarnedGrows(c, now, at);
    if ip in m {
      EarnedAdds(c, m[ip].lastSeen, now, at);
    }
  }

  lemma {:induction false} NothingAfterWindow(es: seq<Event>, answers: seq<bool>, ip: string, t0: real, t1: real)
    requires Schedule(es) && |es| == |answers|
    requires es != [] ==> t1 < es[0].at
    ensures GrantedWithin(es, answers, ip, t0, t1) == 0
  {
    if es != [] {
      assert forall i, j :: 0 <= i < j < |es[1..]| ==> es[1..][i].at == es[i + 1].at && es[1..][j].at == es[j + 1].at;
      NothingAfterWindow(es[1..], answers[1..], ip, t0, t1);
    }
  }

  // ---------- eviction ----------

  /** `m` is `full` with some buckets missing, all of which would be full again by `now`. */
  ghost predicate Forgot(c: Settings, m: map<string, Bucket>, full: map<string, Bucket>, now: real) {
    && m.Keys <= full.Keys
    && Sane(c, full, now)
    && (forall ip :: ip in m ==> m[ip] == full[ip])
    && (forall ip :: ip in full && ip !in m ==> Refilled(c, full[ip], now) == c.burst as real)
  }

  lemma FullStaysFull(c: Settings, b: Bucket, now: real, at: real)
    requires Usable(c) && now <= at && Refilled(c, b, now) == c.burst as real
    ensures Refilled(c, b, at) == c.burst as real
  {
    EarnedAdds(c, b.lastSeen, now, at);
    EarnedGrows(c, now, at);
  }

  lemma {:induction false} EvictionUnobservedFrom(
      c: Settings, m: map<string, Bucket>, full: map<string, Bucket>, es: seq<Event>, now: real)
    requires Usable(c) && c.burst >= 0 && Earned(c, c.staleAge) >= c.burst as real
    requires Schedule(es) && (es != [] ==> now <= es[0].at)
    requires Forgot(c, m, full, now)
    ensures Run(c, m, es, true) == Run(c, full, es, false)
    decreases |es|
  {
    if es != [] {
      var at := es[0].at;
      forall ip | ip in full && ip !in m
        ensures Refilled(c, full[ip], at) == c.burst as real
      {
        FullStaysFull(c, full[ip], now, at);
      }
      match es[0] {
        case Request(ip, _) =>
          var b, b' := Lookup(c, m, ip, at), Lookup(c, full, ip, at);
          assert Refilled(c, b, at) == Refilled(c, b', at);
          TakeStaysSane(c, full, ip, at);
          EvictionUnobservedFrom(c, m[ip := Take(c, b, at).0], full[ip := Take(c, b', at).0], es[1..], at);
        case Evict(_) =>
          var left := Survivors(c, m, at);
          forall ip | ip in m && ip !in left
            ensures Refilled(c, full[ip], at) == c.burst as real
          {
            EarnedAdds(c, 0.0, c.staleAge, at - m[ip].lastSeen);
            EarnedGrows(c, c.staleAge, at - m[ip].lastSeen);
          }
          EvictionUnobservedFrom(c, left, full, es[1..], at);
      }
    }
  }

  lemma {:induction false} NothingGranted(c: Settings, m: map<string, Bucket>, es: seq<Event>, evicting: bool)
    requires c.burst <= 0
    ensures Run(c, m, es, evicting) == seq(|es|, i => false)
    decreases |es|
  {
    if es != [] {
      match es[0] {
        case Request(ip, at) =>
          NothingGranted(c, m[ip := Take(c, Lookup(c, m, ip, at), at).0], es[1..], evicting);
        case Evict(at) =>
          NothingGranted(c, if evicting then Survivors(c, m, at) else m, es[1..], evicting);
      }
    }
  }

  /** The same client asking `n` times at one instant. */
  function Volley(ip: string, at: real, n: nat): (es: seq<Event>)
    ensures |es| == n && forall i :: 0 <= i < n ==> es[i] == Request(ip, at)
  {
    if n == 0 then [] else [Request(ip, at)] + Volley(ip, at, n - 1)
  }

  /** A volley of n against a bucket with `x` tokens: all granted if x >= n, the last refused if x < n. */
  lemma {:induction false} VolleyOutcome(
      c: Settings, m: map<string, Bucket>, ip: string, at: real, n: nat, rest: seq<Event>, evicting: bool)
    returns (b: Bucket)
    requires n >= 1
    ensures var x := Refilled(c, Lookup(c, m, ip, at), at);
            && Run(c, m, Volley(ip, at, n) + rest, evicting)[n - 1] == (x >= n as real)
            && (x >= n as real ==> b == Bucket(x - n as real, at))
    ensures b.lastSeen == at
    ensures Run(c, m, Volley(ip, at, n) + rest, evicting)[n..] == Run(c, m[ip := b], rest, evicting)
    decreases n
  {
    hide Earned;
    var es := Volley(ip, at, n) + rest;
    var (b0, ok) := Take(c, Lookup(c, m, ip, at), at);
    var m0 := m[ip := b0];
    var answers := Run(c, m, es, evicting);
    assert es[1..] == Volley(ip, at, n - 1) + rest;
    assert answers == [ok] + Run(c, m0, es[1..], evicting);
    EarnedNothing(c);
    assert Refilled(c, Lookup(c, m0, ip, at), at) == b0.tokens;
    if n == 1 {
      b := b0;
      assert es[1..] == rest;
    } else {
      b := VolleyOutcome(c, m0, ip, at, n - 1, rest, evicting);
      assert m0[ip := b] == m[ip := b];
      assert answers[n..] == answers[1..][n - 1..];
    }
  }

  /** An instant later than staleAge by so little that an empty bucket is not yet full. */
  lemma JustTooLate(c: Settings) returns (late: real)
    requires Usable(c) && Earned(c, c.staleAge) < c.burst as real
    ensures late > c.staleAge && Earned(c, late) < c.burst as real
  {
    if c.rate == 0.0 {
      late := c.staleAge + 1.0;
    } else {
      var extra := (c.burst as real - Earned(c, c.staleAge)) / (2.0 * c.rate);
      late := c.staleAge + extra;
      assert 2.0 * Earned(c, extra) == c.burst as real - Earned(c, c.staleAge);
    }
  }

  lemma AfterEviction(c: Settings, m: map<string, Bucket>, at: real, rest: seq<Event>, evicting: bool)
    ensures Run(c, m, [Evict(at)] + rest, evicting)[1..] ==
            Run(c, if evicting then Survivors(c, m, at) else m, rest, evicting)
  {
    hide Survivors, Take;
    assert ([Evict(at)] + rest)[1..] == rest;
  }

  /** After a full volley at time 0 and an eviction tick at `late`, the last request of a
      second full volley is granted exactly if evictions happen. */
  lemma SecondVolley(c: Settings, late: real, evicting: bool)
    requires Usable(c) && c.burst >= 1 && late > c.staleAge && Earned(c, late) < c.burst as real
    ensures var n: nat := c.burst;
            var es := Volley("", 0.0, n) + ([Evict(late)] + (Volley("", late, n) + []));
            Run(c, map[], es, evicting)[n..][1..][n - 1] == evicting
  {
    hide Earned, Run, Volley;
    EarnedNothing(c);
    var n: nat := c.burst;
    var again := Volley("", late, n) + [];
    var tail := [Evict(late)] + again;
    var b := VolleyOutcome(c, map[], "", 0.0, n, tail, evicting);
    assert b == Bucket(0.0, 0.0);
    var m: map<string, Bucket> := map["" := b];
    assert map[]["" := b] == m;
    var m' := if evicting then Survivors(c, m, late) else m;
    AfterEviction(c, m, late, again, evicting);
    var _ := VolleyOutcome(c, m', "", late, n, [], evicting);
    assert evicting ==> "" !in m';
  }

  /** A schedule that tells the two limiters apart: drain the bucket, wait a little
      longer than staleAge, evict, and ask for a full burst again. */
  lemma EvictionObserved(c: Settings) returns (es: seq<Event>)
    requires Usable(c) && c.burst >= 1 && c.rate * c.staleAge < c.burst as real
    ensures Schedule(es) && Run(c, map[], es, true) != Run(c, map[], es, false)
  {
    assert Earned(c, c.staleAge) == c.rate * c.staleAge;
    hide Earned, Run;
    var late := JustTooLate(c);
    var n: nat := c.burst;
    es := Volley("", 0.0, n) + ([Evict(late)] + (Volley("", late, n) + []));
    SecondVolley(c, late, true);
    SecondVolley(c, late, false);
  }

  /** MAIN RESULT.  Eviction changes no answer on any schedule exactly when an idle
      bucket has time to refill before it is forgotten (or nothing is ever granted). */
  lemma EvictionUnobservableIff(c: Settings)
    requires Usable(c)
    ensures (forall es: seq<Event> :: Schedule(es) ==> Run(c, map[], es, true) == Run(c, map[], es, false))
            <==> (c.burst <= 0 || c.rate * c.staleAge >= c.burst as real)
  {
    assert Earned(c, c.staleAge) == c.rate * c.staleAge;
    hide Earned;
    if c.burst <= 0 {
      forall es: seq<Event> | Schedule(es)
        ensures Run(c, map[], es, true) == Run(c, map[], es, false)
      {
        NothingGranted(c, map[], es, true);
        NothingGranted(c, map[], es, false);
      }
    } else if Earned(c, c.staleAge) >= c.burst as real {
      forall es: seq<Event> | Schedule(es)
        ensures Run(c, map[], es, true) == Run(c, map[], es, false)
      {
        EvictionUnobservedFrom(c, map[], map[], es, if es == [] then 0.0 else es[0].at);
      }
    } else {
      var es := EvictionObserved(c);
    }
  }

  lemma EarnedBound(c: Settings, es: seq<Event>, ip: string, t0: real, t1: real)
    requires Usable(c) && c.burst >= 0 && Earned(c, c.staleAge) >= c.burst as real
    requires Schedule(es) && t0 <= t1
    ensures GrantedWithin(es, Run(c, map[], es, true), ip, t0, t1) as real <= c.burst as real + Earned(c, t1 - t0)
  {
    hide Earned;
    if c.burst == 0 {
      NothingGranted(c, map[], es, true);
      NothingGranted(c, map[], es, false);
    } else {
      EvictionUnobservedFrom(c, map[], map[], es, if es == [] then 0.0 else es[0].at);
    }
    var start := if es == [] || t0 < es[0].at then t0 else es[0].at;
    WindowPotential(c, map[], es, ip, start, t0, t1);
  }

  /** The rate bound for the limiter as deployed, evictions included. */
  lemma RateBound(c: Settings, es: seq<Event>, ip: string, t0: real, t1: real)
    requires Usable(c) && c.burst >= 0 && c.rate * c.staleAge >= c.burst as real
    requires Schedule(es) && t0 <= t1
    ensures GrantedWithin(es, Run(c, map[], es, true), ip, t0, t1) as real <= c.burst as real + c.rate * (t1 - t0)
  {
    hide Run, GrantedWithin, Schedule;
    EarnedBound(c, es, ip, t0, t1);
  }

  /** The settings the API server uses satisfy the condition. */
  lemma DeployedSettings()
    ensures var c := Settings(30, 5.0, 600.0);
            Usable(c) && forall es: seq<Event> :: Schedule(es) ==> Run(c, map[], es, true) == Run(c, map[], es, false)
  {
    EvictionUnobservableIff(Settings(30, 5.0, 600.0));
  }
}
