/** Sorting by a strict weak order, for `ORDER BY` clauses and for the library's sort calls. */
module Ordering {

  ghost predicate StrictWeak<T(!new)>(before: (T, T) -> bool) {
    && (forall a, b :: before(a, b) ==> !before(b, a))
    && (forall a, b, c :: before(a, c) ==> before(a, b) || before(b, c))
  }

  /** No element stands before one that should precede it. */
  ghost predicate InOrder<T>(s: seq<T>, before: (T, T) -> bool) {
    forall i, j :: 0 <= i < j < |s| ==> !before(s[j], s[i])
  }

  /** Every element precedes all later ones. */
  ghost predicate Strictly<T>(s: seq<T>, before: (T, T) -> bool) {
    forall i, j :: 0 <= i < j < |s| ==> before(s[i], s[j])
  }

  ghost predicate NoDuplicates<T>(s: seq<T>) {
    forall i, j :: 0 <= i < j < |s| ==> s[i] != s[j]
  }

  ghost predicate Rearranged<T>(s: seq<T>, t: seq<T>) {
    multiset(s) == multiset(t)
  }

  function Insert<T>(x: T, s: seq<T>, before: (T, T) -> bool): seq<T> {
    if s == [] || before(x, s[0]) then [x] + s else [s[0]] + Insert(x, s[1..], before)
  }

  function Sort<T>(s: seq<T>, before: (T, T) -> bool): seq<T> {
    if s == [] then [] else Insert(s[0], Sort(s[1..], before), before)
  }

  lemma {:induction false} InsertRearranges<T>(x: T, s: seq<T>, before: (T, T) -> bool)
    ensures multiset(Insert(x, s, before)) == multiset{x} + multiset(s)
  {
    if s != [] && !before(x, s[0]) {
      InsertRearranges(x, s[1..], before);
      assert s == [s[0]] + s[1..];
    }
  }

  lemma {:induction false} InsertOrders<T(!new)>(x: T, s: seq<T>, before: (T, T) -> bool)
    requires StrictWeak(before) && InOrder(s, before)
    ensures InOrder(Insert(x, s, before), before)
  {
    if s == [] {
    } else if before(x, s[0]) {
      var head := s[0];
      assert forall y :: before(y, x) ==> before(y, head) || before(head, x);
    } else {
      var rest := Insert(x, s[1..], before);
      InsertOrders(x, s[1..], before);
      InsertRearranges(x, s[1..], before);
      forall j | 0 <= j < |rest| ensures !before(rest[j], s[0]) {
        assert rest[j] in multiset(rest);
      }
    }
  }

  /** Sorting rearranges, and puts everything in order. */
  lemma {:induction false} SortSorts<T(!new)>(s: seq<T>, before: (T, T) -> bool)
    requires StrictWeak(before)
    ensures multiset(Sort(s, before)) == multiset(s) && InOrder(Sort(s, before), before)
  {
    if s != [] {
      SortSorts(s[1..], before);
      InsertRearranges(s[0], Sort(s[1..], before), before);
      InsertOrders(s[0], Sort(s[1..], before), before);
      assert s == [s[0]] + s[1..];
    }
  }

  /** Two lists with the same elements, each as often, have the same members and length. */
  lemma SameMembers<T>(s: seq<T>, t: seq<T>)
    requires multiset(s) == multiset(t)
    ensures |s| == |t| && forall x :: x in s <==> x in t
  {
    assert |multiset(s)| == |s| && |multiset(t)| == |t|;
    forall x ensures x in s <==> x in t {
      assert x in multiset(s) <==> x in multiset(t);
    }
  }

  /** If any two elements at different places are comparable, the sorted list is strict. */
  lemma SortIsStrict<T(!new)>(s: seq<T>, before: (T, T) -> bool)
    requires StrictWeak(before) && NoDuplicates(s)
    requires forall x, y :: x in s && y in s && x != y ==> before(x, y) || before(y, x)
    ensures Strictly(Sort(s, before), before)
    ensures forall x :: x in Sort(s, before) <==> x in s
  {
    SortSorts(s, before);
    SameMembers(Sort(s, before), s);
    RearrangedDistinct(Sort(s, before), s);
  }

  lemma RearrangedDistinct<T>(s: seq<T>, t: seq<T>)
    requires multiset(s) == multiset(t) && NoDuplicates(t)
    ensures NoDuplicates(s)
  {
    OnceEach(t);
    forall i, j | 0 <= i < j < |s| ensures s[i] != s[j] {
      OftenEnough(s, i, j);
    }
  }

  lemma OftenEnough<T>(s: seq<T>, i: nat, j: nat)
    requires i < j < |s|
    ensures s[i] == s[j] ==> multiset(s)[s[j]] >= 2
  {
    assert s == s[..j] + [s[j]] + s[j + 1..];
    assert s[i] in s[..j];
  }

  lemma {:induction false} OnceEach<T>(t: seq<T>)
    requires NoDuplicates(t)
    ensures forall x :: multiset(t)[x] <= 1
  {
    if t != [] {
      OnceEach(t[1..]);
      assert t == [t[0]] + t[1..];
      assert t[0] !in t[1..];
    }
  }

  /** A strictly ordered list is determined by its elements. */
  lemma {:induction false} StrictIsUnique<T(!new)>(s: seq<T>, t: seq<T>, before: (T, T) -> bool)
    requires StrictWeak(before) && Strictly(s, before) && Strictly(t, before)
    requires forall x :: x in s <==> x in t
    ensures s == t
  {
    assert s != [] ==> s[0] in t;
    assert t != [] ==> t[0] in s;
    if s != [] {
      var i :| 0 <= i < |s| && s[i] == t[0];
      var j :| 0 <= j < |t| && t[j] == s[0];
      assert s[0] == t[0];
      forall x ensures x in s[1..] <==> x in t[1..] {
        assert !before(s[0], s[0]);
        if x in s[1..] { assert x in s && x != s[0]; assert x in t; }
        if x in t[1..] { assert x in t && x != t[0]; assert x in s; }
      }
      StrictIsUnique(s[1..], t[1..], before);
      assert s == [s[0]] + s[1..] && t == [t[0]] + t[1..];
    }
  }

  /** What follows the n-th element is what it precedes. */
  lemma StrictSuffix<T(!new)>(s: seq<T>, n: nat, before: (T, T) -> bool)
    requires StrictWeak(before) && Strictly(s, before) && 1 <= n <= |s|
    ensures Strictly(s[n..], before)
    ensures forall x :: x in s[n..] <==> x in s && before(s[n - 1], x)
  {
    forall x ensures x in s[n..] <==> x in s && before(s[n - 1], x) {
      if x in s[n..] {
        var k :| 0 <= k < |s[n..]| && s[n..][k] == x;
        assert s[n + k] == x;
      }
      if x in s && before(s[n - 1], x) {
        var k :| 0 <= k < |s| && s[k] == x;
        assert k >= n;
        assert s[n..][k - n] == x;
      }
    }
  }

  lemma StrictJoin<T>(s: seq<T>, t: seq<T>, before: (T, T) -> bool)
    requires Strictly(s, before) && Strictly(t, before)
    requires forall x, y :: x in s && y in t ==> before(x, y)
    ensures Strictly(s + t, before)
  {
    var both := s + t;
    forall i, j | 0 <= i < j < |both| ensures before(both[i], both[j]) {
      if i < |s| <= j {
        assert s[i] in s && t[j - |s|] in t;
      }
    }
  }

  /** The library's unstable sort: in order, a rearrangement, and nothing said about ties. */
  method SortSlice<T(!new)>(s: seq<T>, before: (T, T) -> bool) returns (t: seq<T>)
    requires StrictWeak(before)
    ensures multiset(t) == multiset(s) && InOrder(t, before)
  {
    SortSorts(s, before);
    t := Sort(s, before);
  }
}
