/** Lists of things with an id, as the snapshot keeps them: searched from the front, updated
    in place, reordered by sorting.  Order and position never matter, only what is stored
    under which id. */
module Lists {
  import opened Ordering

  ghost predicate DistinctIds<T>(xs: seq<T>, id: T -> string) {
    forall i, j :: 0 <= i < j < |xs| ==> id(xs[i]) != id(xs[j])
  }

  /** The first element with this id, or -1. */
  function IndexOf<T>(xs: seq<T>, id: T -> string, key: string): (i: int)
    ensures -1 <= i < |xs|
    ensures i >= 0 ==> id(xs[i]) == key
    ensures i < 0 ==> forall j :: 0 <= j < |xs| ==> id(xs[j]) != key
  {
    if xs == [] then -1
    else if id(xs[0]) == key then 0
    else
      var i := IndexOf(xs[1..], id, key);
      if i < 0 then -1 else i + 1
  }

  ghost function Ids<T(!new)>(xs: seq<T>, id: T -> string): set<string> {
    set x | x in xs :: id(x)
  }

  /** The list as a table keyed by id; with distinct ids nothing is lost. */
  ghost function ById<T(!new)>(xs: seq<T>, id: T -> string): map<string, T> {
    map k | k in Ids(xs, id) :: xs[IndexOf(xs, id, k)]
  }

  lemma ByIdHolds<T(!new)>(xs: seq<T>, id: T -> string)
    requires DistinctIds(xs, id)
    ensures forall k, x :: k in ById(xs, id) && ById(xs, id)[k] == x <==> x in xs && id(x) == k
  {
    forall k, x ensures k in ById(xs, id) && ById(xs, id)[k] == x <==> x in xs && id(x) == k {
      if x in xs && id(x) == k {
        var i :| 0 <= i < |xs| && xs[i] == x;
        assert IndexOf(xs, id, k) == i;
      }
    }
  }

  lemma {:induction false} CountIds<T(!new)>(xs: seq<T>, id: T -> string)
    requires DistinctIds(xs, id)
    ensures |Ids(xs, id)| == |xs|
  {
    if xs != [] {
      CountIds(xs[1..], id);
      assert xs == [xs[0]] + xs[1..];
      assert Ids(xs, id) == Ids(xs[1..], id) + {id(xs[0])};
    }
  }

  method Find<T>(xs: seq<T>, id: T -> string, key: string) returns (i: int)
    ensures i == IndexOf(xs, id, key)
  {
    for k := 0 to |xs|
      invariant IndexOf(xs, id, key) == var r := IndexOf(xs[k..], id, key); if r < 0 then -1 else r + k
    {
      assert xs[k..][1..] == xs[k + 1..];
      if id(xs[k]) == key {
        return k;
      }
    }
    return -1;
  }

  /** Touches the element with this id, or a new one appended for it. */
  function Upsert<T>(xs: seq<T>, id: T -> string, key: string, initial: T, touch: T -> T): seq<T> {
    var i := IndexOf(xs, id, key);
    if i < 0 then xs + [touch(initial)] else xs[i := touch(xs[i])]
  }

  /** On the table this is one update, whatever the position. */
  lemma UpsertOnTable<T(!new)>(xs: seq<T>, id: T -> string, key: string, initial: T, touch: T -> T)
    requires DistinctIds(xs, id) && id(initial) == key && forall x :: id(touch(x)) == id(x)
    ensures var ys := Upsert(xs, id, key, initial, touch);
            var table := ById(xs, id);
            && DistinctIds(ys, id)
            && ById(ys, id) == table[key := touch(if key in table then table[key] else initial)]
  {
    var i := IndexOf(xs, id, key);
    if i < 0 {
      Appended(xs, touch(initial), id);
    } else {
      Replaced(xs, i, touch(xs[i]), id);
    }
  }

  lemma RearrangedIds<T(!new)>(xs: seq<T>, ys: seq<T>, id: T -> string)
    requires DistinctIds(xs, id) && multiset(xs) == multiset(ys)
    ensures DistinctIds(ys, id)
  {
    SameMembers(xs, ys);
    RearrangedDistinct(ys, xs);
    forall i, j | 0 <= i < j < |ys| ensures id(ys[i]) != id(ys[j]) {
      assert ys[i] in xs && ys[j] in xs && ys[i] != ys[j];
    }
  }

  /** A table is determined by what it holds under each id. */
  lemma TableIs<T(!new)>(xs: seq<T>, id: T -> string, table: map<string, T>)
    requires DistinctIds(xs, id)
    requires forall k, x :: k in table && table[k] == x <==> x in xs && id(x) == k
    ensures ById(xs, id) == table
  {
    ByIdHolds(xs, id);
    var own := ById(xs, id);
    hide ById;
    forall k ensures (k in own <==> k in table) && (k in own ==> own[k] == table[k]) {
      if k in own { assert own[k] in xs && id(own[k]) == k; }
      if k in table { assert table[k] in xs && id(table[k]) == k; }
    }
  }

  /** Rearranging a list keeps its ids distinct and its table the same. */
  lemma Reordered<T(!new)>(xs: seq<T>, ys: seq<T>, id: T -> string)
    requires DistinctIds(xs, id) && multiset(xs) == multiset(ys)
    ensures DistinctIds(ys, id) && ById(ys, id) == ById(xs, id)
  {
    RearrangedIds(xs, ys, id);
    SameMembers(xs, ys);
    ByIdHolds(xs, id);
    hide ById;
    TableIs(ys, id, ById(xs, id));
  }

  lemma Appended<T(!new)>(xs: seq<T>, x: T, id: T -> string)
    requires DistinctIds(xs, id) && forall j :: 0 <= j < |xs| ==> id(xs[j]) != id(x)
    ensures DistinctIds(xs + [x], id)
    ensures ById(xs + [x], id) == ById(xs, id)[id(x) := x] && id(x) !in ById(xs, id)
  {
    ByIdHolds(xs, id);
    hide ById;
    TableIs(xs + [x], id, ById(xs, id)[id(x) := x]);
  }

  lemma Replaced<T(!new)>(xs: seq<T>, i: nat, x: T, id: T -> string)
    requires DistinctIds(xs, id) && i < |xs| && id(xs[i]) == id(x)
    ensures DistinctIds(xs[i := x], id)
    ensures ById(xs[i := x], id) == ById(xs, id)[id(x) := x]
    ensures id(x) in ById(xs, id) && ById(xs, id)[id(x)] == xs[i]
  {
    var ys := xs[i := x];
    assert ys[i] == x;
    forall y ensures y in ys <==> y == x || (y in xs && id(y) != id(x)) {
      if y in xs && id(y) != id(x) {
        var j :| 0 <= j < |xs| && xs[j] == y;
        assert ys[j] == y;
      }
    }
    ByIdHolds(xs, id);
    hide ById;
    TableIs(ys, id, ById(xs, id)[id(x) := x]);
  }

  // ---------- tables up to what a projection forgets ----------

  function Lookup<T>(table: map<string, T>, key: string, initial: T): T {
    if key in table then table[key] else initial
  }

  ghost function Project<T>(table: map<string, T>, core: T -> T): map<string, T> {
    map k | k in table :: core(table[k])
  }

  ghost function Table<T(!new)>(xs: seq<T>, id: T -> string, core: T -> T): map<string, T> {
    Project(ById(xs, id), core)
  }

  lemma ProjectUpdate<T>(table: map<string, T>, core: T -> T, key: string, x: T)
    ensures Project(table[key := x], core) == Project(table, core)[key := core(x)]
  {
  }

  lemma ProjectLookup<T>(table: map<string, T>, core: T -> T, key: string, initial: T)
    requires core(initial) == initial
    ensures Lookup(Project(table, core), key, initial) == core(Lookup(table, key, initial))
  {
  }

  /** An upsert and a rearrangement are one update of the table, if the touch does not look
      at what the projection forgets. */
  lemma UpsertOnCore<T(!new)>(
      xs: seq<T>, ys: seq<T>, id: T -> string, core: T -> T, key: string, initial: T, touch: T -> T)
    requires DistinctIds(xs, id) && id(initial) == key && (forall x :: id(touch(x)) == id(x))
    requires core(initial) == initial
    requires var x := Lookup(ById(xs, id), key, initial); core(touch(core(x))) == core(touch(x))
    requires Rearranged(ys, Upsert(xs, id, key, initial, touch))
    ensures Table(ys, id, core) == Table(xs, id, core)[key := core(touch(Lookup(Table(xs, id, core), key, initial)))]
  {
    UpsertOnTable(xs, id, key, initial, touch);
    hide ById, Upsert, Project, DistinctIds;
    Reordered(Upsert(xs, id, key, initial, touch), ys, id);
    var table := ById(xs, id);
    var x := Lookup(table, key, initial);
    ProjectUpdate(table, core, key, touch(x));
    ProjectLookup(table, core, key, initial);
  }

  /** Lists that agree position by position up to the projection, then rearranged, have the same table. */
  lemma SamePositions<T(!new)>(xs: seq<T>, ys: seq<T>, zs: seq<T>, id: T -> string, core: T -> T)
    requires DistinctIds(xs, id) && |xs| == |ys| && Rearranged(zs, ys)
    requires forall i :: 0 <= i < |xs| ==> id(xs[i]) == id(ys[i]) && core(xs[i]) == core(ys[i])
    ensures Table(zs, id, core) == Table(xs, id, core)
  {
    forall i, j | 0 <= i < j < |ys| ensures id(ys[i]) != id(ys[j]) {
      assert id(xs[i]) != id(xs[j]);
    }
    hide *;
    AlignedTables(xs, ys, id, core);
    SameTable(ys, zs, id, core);
  }

  lemma SameTable<T(!new)>(ys: seq<T>, zs: seq<T>, id: T -> string, core: T -> T)
    requires DistinctIds(ys, id) && Rearranged(zs, ys)
    ensures Table(zs, id, core) == Table(ys, id, core)
  {
    Reordered(ys, zs, id);
  }

  lemma AlignedTables<T(!new)>(xs: seq<T>, ys: seq<T>, id: T -> string, core: T -> T)
    requires |xs| == |ys| && forall i :: 0 <= i < |xs| ==> id(xs[i]) == id(ys[i]) && core(xs[i]) == core(ys[i])
    ensures Table(ys, id, core) == Table(xs, id, core)
  {
    forall k ensures IndexOf(xs, id, k) == IndexOf(ys, id, k)
    ensures (k in Ids(xs, id) <==> k in Ids(ys, id)) && (k in Ids(xs, id) ==> IndexOf(xs, id, k) >= 0) {
      SameIndex(xs, ys, id, k);
    }
    hide Ids, IndexOf;
  }

  lemma {:induction false} SameIndex<T(!new)>(xs: seq<T>, ys: seq<T>, id: T -> string, k: string)
    requires |xs| == |ys| && forall i :: 0 <= i < |xs| ==> id(xs[i]) == id(ys[i])
    ensures IndexOf(xs, id, k) == IndexOf(ys, id, k) && (k in Ids(xs, id) <==> k in Ids(ys, id))
    ensures k in Ids(xs, id) <==> IndexOf(xs, id, k) >= 0
    decreases |xs|
  {
    if xs != [] {
      SameIndex(xs[1..], ys[1..], id, k);
      assert xs == [xs[0]] + xs[1..] && ys == [ys[0]] + ys[1..];
    }
  }

  // ---------- sums ----------

  function Total<T>(xs: seq<T>, weight: T -> nat): nat {
    if xs == [] then 0 else weight(xs[0]) + Total(xs[1..], weight)
  }

  lemma {:induction false} TotalSplits<T>(xs: seq<T>, ys: seq<T>, weight: T -> nat)
    ensures Total(xs + ys, weight) == Total(xs, weight) + Total(ys, weight)
  {
    if xs == [] {
      assert xs + ys == ys;
    } else {
      TotalSplits(xs[1..], ys, weight);
      assert (xs + ys)[1..] == xs[1..] + ys;
    }
  }

  lemma TotalReplaced<T>(xs: seq<T>, i: nat, x: T, weight: T -> nat)
    requires i < |xs|
    ensures Total(xs[i := x], weight) + weight(xs[i]) == Total(xs, weight) + weight(x)
  {
    TotalAt(xs, i, weight);
    TotalAt(xs[i := x], i, weight);
    assert xs[i := x][..i] == xs[..i] && xs[i := x][i + 1..] == xs[i + 1..];
  }

  lemma TotalAt<T>(xs: seq<T>, i: nat, weight: T -> nat)
    requires i < |xs|
    ensures Total(xs, weight) == Total(xs[..i], weight) + weight(xs[i]) + Total(xs[i + 1..], weight)
  {
    TotalSplits(xs[..i], xs[i..], weight);
    assert xs == xs[..i] + xs[i..] && xs[i..][1..] == xs[i + 1..];
  }

  lemma WithoutOne<T>(xs: seq<T>, i: nat, weight: T -> nat)
    requires i < |xs|
    ensures multiset(xs[..i] + xs[i + 1..]) == multiset(xs) - multiset{xs[i]}
    ensures Total(xs, weight) == Total(xs[..i] + xs[i + 1..], weight) + weight(xs[i])
  {
    hide Total;
    assert xs == xs[..i] + [xs[i]] + xs[i + 1..];
    TotalAt(xs, i, weight);
    TotalSplits(xs[..i], xs[i + 1..], weight);
  }

  /** A sum does not depend on the order. */
  lemma {:induction false} TotalReordered<T>(xs: seq<T>, ys: seq<T>, weight: T -> nat)
    requires multiset(xs) == multiset(ys)
    ensures Total(xs, weight) == Total(ys, weight)
    decreases |xs|
  {
    assert |multiset(xs)| == |xs| && |multiset(ys)| == |ys|;
    if xs != [] {
      var i := PositionOf(ys, xs[0]);
      WithoutOne(xs, 0, weight);
      WithoutOne(ys, i, weight);
      hide Total;
      var xs', ys' := xs[..0] + xs[1..], ys[..i] + ys[i + 1..];
      TotalReordered(xs', ys', weight);
    }
  }

  lemma PositionOf<T>(ys: seq<T>, x: T) returns (i: nat)
    requires x in multiset(ys)
    ensures i < |ys| && ys[i] == x
  {
    i :| 0 <= i < |ys| && ys[i] == x;
  }
}
