/** What loading packs guarantees: the loaded directories in closed form, a closed registry, and
    what the names of the directories matter for. */
module PackLaws {
  import opened Ordering
  import opened Packs
  import opened Text

  // ---------- loadable directories in closed form ----------

  /** The conditions in which the order of the packs plays no part. */
  ghost predicate ConsistentNames(ds: seq<Decl>) {
    && (forall d :: d in ds ==> LocallyOk(d))
    && (forall id :: id in AllTypes(ds) || id in AllEdges(ds) ==> ValidId(id))
    && NoDuplicates(CORE_ENTITIES + AllTypes(ds)) && NoDuplicates(CORE_EDGES + AllEdges(ds))
    && NoDuplicates(Names(ds))
  }

  /** Each pack refers only to types of the core, of packs before it, and of its own. */
  ghost predicate RefersBack(ds: seq<Decl>) {
    forall i :: 0 <= i < |ds| ==> RefersTo(ds[i], Entities(ds[..i + 1]))
  }

  lemma NoDuplicatesJoin(a: seq<string>, b: seq<string>)
    ensures NoDuplicates(a + b) <==> NoDuplicates(a) && NoDuplicates(b) && Members(a) !! Members(b)
  {
    var all := a + b;
    if NoDuplicates(all) {
      forall x | x in a && x in b ensures false {
        DuplicateAcross(a, b, x);
      }
      forall i, j | 0 <= i < j < |a| ensures a[i] != a[j] {
        assert all[i] != all[j];
      }
      forall i, j | 0 <= i < j < |b| ensures b[i] != b[j] {
        assert all[|a| + i] != all[|a| + j];
      }
    }
    if NoDuplicates(a) && NoDuplicates(b) && Members(a) !! Members(b) {
      forall i, j | 0 <= i < j < |all| ensures all[i] != all[j] {
        if i < |a| <= j {
          assert a[i] in Members(a) && b[j - |a|] in Members(b);
        }
      }
    }
  }

  lemma DuplicateAcross(a: seq<string>, b: seq<string>, x: string)
    requires x in a && x in b
    ensures !NoDuplicates(a + b)
  {
    var all := a + b;
    var i :| 0 <= i < |a| && a[i] == x;
    var j :| 0 <= j < |b| && b[j] == x;
    assert all[i] == all[|a| + j];
  }

  lemma NewAfter(core: seq<string>, before: seq<string>, own: seq<string>)
    requires NoDuplicates(core + before)
    ensures NewTypes(own, Members(core) + Members(before)) <==>
            NoDuplicates(core + (before + own)) && forall id :: id in own ==> ValidId(id)
  {
    hide ValidId;
    assert core + (before + own) == core + before + own;
    NoDuplicatesJoin(core + before, own);
    assert Members(core + before) == Members(core) + Members(before);
    hide NoDuplicates;
  }

  lemma CoreIsDistinct()
    ensures NoDuplicates(CORE_ENTITIES) && NoDuplicates(CORE_EDGES)
  {
  }

  /** MAIN RESULT.  A directory can be loaded if and only if every declaration is fine by itself, all
      names are valid and no name comes twice, the core's included, and references go back. */
  lemma {:induction false} LoadableIff(ds: seq<Decl>)
    ensures Loadable(ds) <==> ConsistentNames(ds) && RefersBack(ds)
    decreases |ds|
  {
    if ds == [] {
      CoreIsDistinct();
      assert CORE_ENTITIES + [] == CORE_ENTITIES && CORE_EDGES + [] == CORE_EDGES;
    } else {
      var front, d := ds[..|ds| - 1], ds[|ds| - 1];
      assert ds == front + [d];
      hide *;
      LoadableIff(front);
      LoadableOneMore(front, d);
      ConsistentOneMore(front, d);
      RefersOneMore(front, d);
      PackOkParts(front, d);
    }
  }

  lemma ConsistentOneMore(ds: seq<Decl>, d: Decl)
    ensures ConsistentNames(ds + [d]) <==>
              && ConsistentNames(ds) && LocallyOk(d) && PackName(d) !in Names(ds)
              && NewTypes(OwnTypes(d), Entities(ds)) && NewTypes(OwnEdges(d), Edges(ds))
  {
    hide LocallyOk, ValidId, PackName, OwnTypes, OwnEdges;
    TypesOneMore(ds, d);
    NamesOneMore(ds, d);
    LastIsNew(Names(ds), PackName(d));
    assert CORE_ENTITIES + (AllTypes(ds) + OwnTypes(d)) == CORE_ENTITIES + AllTypes(ds) + OwnTypes(d);
    assert CORE_EDGES + (AllEdges(ds) + OwnEdges(d)) == CORE_EDGES + AllEdges(ds) + OwnEdges(d);
    NoDuplicatesJoin(CORE_ENTITIES + AllTypes(ds), OwnTypes(d));
    NoDuplicatesJoin(CORE_EDGES + AllEdges(ds), OwnEdges(d));
    if NoDuplicates(CORE_ENTITIES + AllTypes(ds)) {
      NewAfter(CORE_ENTITIES, AllTypes(ds), OwnTypes(d));
    }
    if NoDuplicates(CORE_EDGES + AllEdges(ds)) {
      NewAfter(CORE_EDGES, AllEdges(ds), OwnEdges(d));
    }
    hide NoDuplicates, NewTypes, AllTypes, AllEdges, Names;
    assert forall x :: x in ds + [d] <==> x in ds || x == d;
  }

  lemma RefersOneMore(ds: seq<Decl>, d: Decl)
    ensures RefersBack(ds + [d]) <==> RefersBack(ds) && RefersTo(d, Entities(ds) + Members(OwnTypes(d)))
  {
    hide RefersTo, OwnTypes, Entities, Members;
    var all := ds + [d];
    TypesOneMore(ds, d);
    assert all[..|ds| + 1] == all && all[|ds|] == d;
    assert forall i :: 0 <= i < |ds| ==> all[..i + 1] == ds[..i + 1] && all[i] == ds[i];
    if RefersBack(all) {
      forall i | 0 <= i < |ds| ensures RefersTo(ds[i], Entities(ds[..i + 1])) {
        assert RefersTo(all[i], Entities(all[..i + 1]));
      }
      assert RefersTo(all[|ds|], Entities(all[..|ds| + 1]));
    }
  }

  lemma PackOkParts(ds: seq<Decl>, d: Decl)
    ensures PackOk(d, Entities(ds), Edges(ds)) <==>
              && LocallyOk(d) && NewTypes(OwnTypes(d), Entities(ds)) && NewTypes(OwnEdges(d), Edges(ds))
              && RefersTo(d, Entities(ds) + Members(OwnTypes(d)))
  {
    hide LocallyOk, NewTypes, RefersTo, OwnTypes, OwnEdges, Entities, Edges;
  }

  // ---------- the order of the directories ----------

  /** What a list of declarations contributes, for any kind of contribution. */
  function Contributed(ds: seq<Decl>, part: Decl -> seq<string>): seq<string> {
    if ds == [] then [] else Contributed(ds[..|ds| - 1], part) + part(ds[|ds| - 1])
  }

  lemma {:induction false} ContributedParts(ds: seq<Decl>)
    ensures AllTypes(ds) == Contributed(ds, OwnTypes) && AllEdges(ds) == Contributed(ds, OwnEdges)
    ensures Names(ds) == Contributed(ds, (d: Decl) => [PackName(d)])
    decreases |ds|
  {
    hide OwnTypes, OwnEdges, PackName;
    if ds != [] {
      var front, d := ds[..|ds| - 1], ds[|ds| - 1];
      ContributedParts(front);
      NamesOneMore(front, d);
      assert ds == front + [d];
    }
  }

  lemma ContributedLast(ds: seq<Decl>, part: Decl -> seq<string>)
    requires ds != []
    ensures multiset(Contributed(ds, part)) ==
            multiset(Contributed(ds[..|ds| - 1], part)) + multiset(part(ds[|ds| - 1]))
  {
  }

  lemma {:induction false} ContributedWithout(ds: seq<Decl>, k: nat, part: Decl -> seq<string>)
    requires k < |ds|
    ensures multiset(Contributed(ds, part)) ==
            multiset(Contributed(ds[..k] + ds[k + 1..], part)) + multiset(part(ds[k]))
    decreases |ds|
  {
    hide Contributed;
    var front := ds[..|ds| - 1];
    var rest := ds[..k] + ds[k + 1..];
    ContributedLast(ds, part);
    if k == |ds| - 1 {
      assert rest == front;
    } else {
      ContributedWithout(front, k, part);
      assert rest[..|rest| - 1] == front[..k] + front[k + 1..] && rest[|rest| - 1] == ds[|ds| - 1];
      ContributedLast(rest, part);
    }
  }

  lemma {:induction false} ContributedReordered(ds: seq<Decl>, es: seq<Decl>, part: Decl -> seq<string>)
    requires Rearranged(ds, es)
    ensures multiset(Contributed(ds, part)) == multiset(Contributed(es, part))
    decreases |ds|
  {
    hide Contributed;
    SameMembers(ds, es);
    if ds == [] {
      assert es == [];
    } else {
      var front, d := ds[..|ds| - 1], ds[|ds| - 1];
      assert d in ds;
      var k :| 0 <= k < |es| && es[k] == d;
      var rest := es[..k] + es[k + 1..];
      WithoutOne(ds, es, k);
      ContributedReordered(front, rest, part);
      ContributedWithout(es, k, part);
      ContributedLast(ds, part);
    }
  }

  lemma WithoutOne(ds: seq<Decl>, es: seq<Decl>, k: nat)
    requires Rearranged(ds, es) && ds != [] && k < |es| && es[k] == ds[|ds| - 1]
    ensures Rearranged(ds[..|ds| - 1], es[..k] + es[k + 1..])
  {
    var front, d := ds[..|ds| - 1], ds[|ds| - 1];
    var rest := es[..k] + es[k + 1..];
    assert ds == front + [d];
    assert es == es[..k] + [d] + es[k + 1..];
    assert multiset(ds) == multiset(front) + multiset{d};
    assert multiset(es) == multiset(rest) + multiset{d};
    assert multiset(front) == multiset(ds) - multiset{d} && multiset(rest) == multiset(es) - multiset{d};
  }

  lemma PartsReordered(ds: seq<Decl>, es: seq<Decl>)
    requires Rearranged(ds, es)
    ensures Rearranged(AllTypes(es), AllTypes(ds)) && Rearranged(AllEdges(es), AllEdges(ds))
    ensures Rearranged(Names(es), Names(ds))
  {
    ContributedParts(ds);
    ContributedParts(es);
    hide OwnTypes, OwnEdges, PackName, AllTypes, AllEdges, Names, Contributed;
    ContributedReordered(ds, es, OwnTypes);
    ContributedReordered(ds, es, OwnEdges);
    ContributedReordered(ds, es, (d: Decl) => [PackName(d)]);
  }

  lemma DistinctReordered(core: seq<string>, a: seq<string>, b: seq<string>)
    requires Rearranged(a, b) && NoDuplicates(core + b)
    ensures NoDuplicates(core + a)
  {
    RearrangedDistinct(core + a, core + b);
  }

  lemma ConsistencyIgnoresOrder(ds: seq<Decl>, es: seq<Decl>)
    requires Rearranged(ds, es) && ConsistentNames(ds)
    ensures ConsistentNames(es)
  {
    SameMembers(ds, es);
    PartsReordered(ds, es);
    hide LocallyOk, ValidId, AllTypes, AllEdges, Names, NoDuplicates;
    SameMembers(AllTypes(es), AllTypes(ds));
    SameMembers(AllEdges(es), AllEdges(ds));
    DistinctReordered(CORE_ENTITIES, AllTypes(es), AllTypes(ds));
    DistinctReordered(CORE_EDGES, AllEdges(es), AllEdges(ds));
    StillDistinct(Names(es), Names(ds));
  }

  /** MAIN RESULT.  Renaming directories, and with it loading the same packs in another order,
      matters for references only: the packs then load if and only if each still refers to nothing
      that comes after it. */
  lemma OnlyReferencesFeelOrder(ds: seq<Decl>, es: seq<Decl>)
    requires Rearranged(ds, es) && Loadable(ds)
    ensures Loadable(es) <==> RefersBack(es)
  {
    hide Loadable, ConsistentNames, RefersBack;
    LoadableIff(ds);
    LoadableIff(es);
    ConsistencyIgnoresOrder(ds, es);
  }

  /** A pack that declares a type, and one with a view of that type. */
  function Declares(): Decl {
    Decl("a", "a", "1", "v1", ["drone"], [], [], [], [], [])
  }

  function Views(): Decl {
    Decl("b", "b", "1", "v1", [], [], [], [], [ViewDecl("v", "v", "drone")], [])
  }

  lemma PlainNames()
    ensures TrimSpace("a") == "a" && TrimSpace("b") == "b" && TrimSpace("1") == "1" && TrimSpace("v1") == "v1"
    ensures TrimSpace("drone") == "drone" && TrimSpace("v") == "v" && ValidId("drone") && ValidId("v")
    ensures "drone" !in CORE_ENTITIES
  {
    TrimmedAlready("drone");
    TrimmedAlready("v1");
    assert forall c :: c in "drone" ==> IdChar(c);
  }

  lemma ExampleTypes()
    ensures OwnTypes(Declares()) == ["drone"] && OwnTypes(Views()) == []
    ensures OwnEdges(Declares()) == [] && OwnEdges(Views()) == []
    ensures LocallyOk(Declares()) && LocallyOk(Views())
    ensures PackName(Declares()) == "a" && PackName(Views()) == "b"
  {
    PlainNames();
    hide TrimSpace;
  }

  lemma ViewsNeeds(types: set<string>)
    ensures RefersTo(Views(), types) <==> "drone" in types
    ensures RefersTo(Declares(), types)
  {
    PlainNames();
    hide TrimSpace, ValidId;
    var d := Views();
    assert d.views[0] in d.views;
  }

  lemma DeclaresLoads()
    ensures Loadable([] + [Declares()]) && Names([] + [Declares()]) == ["a"]
    ensures "drone" in Entities([] + [Declares()])
  {
    hide *;
    var a := Declares();
    ExampleTypes();
    NoPacks();
    FewTypes();
    ViewsNeeds(Entities([]) + Members(["drone"]));
    PackOkParts([], a);
    LoadableOneMore([], a);
    TypesOneMore([], a);
    NamesOneMore([], a);
    MembersHolds(["drone"], "drone");
    assert [] + ["a"] == ["a"];
  }

  lemma ViewsLoadNext()
    ensures Loadable([] + [Declares()] + [Views()])
  {
    hide *;
    var ds := [] + [Declares()];
    DeclaresLoads();
    ExampleTypes();
    FewTypes();
    ViewsNeeds(Entities(ds) + Members([]));
    PackOkParts(ds, Views());
    LoadableOneMore(ds, Views());
  }

  lemma ViewsLoadNotFirst()
    ensures !Loadable([] + [Views()] + [Declares()])
  {
    hide *;
    ExampleTypes();
    NoPacks();
    MembersHolds([], "drone");
    ViewsNeeds(Entities([]) + Members([]));
    PackOkParts([], Views());
    LoadableOneMore([], Views());
    LoadableOneMore([] + [Views()], Declares());
  }

  /** Loadable packs that another order does not load: with the directories' names swapped the view comes
      before its type. */
  lemma OrderCanMatter() returns (ds: seq<Decl>, es: seq<Decl>)
    ensures Rearranged(ds, es) && Loadable(ds) && !Loadable(es)
  {
    ds, es := [] + [Declares()] + [Views()], [] + [Views()] + [Declares()];
    hide Loadable, Declares, Views;
    ViewsLoadNext();
    ViewsLoadNotFirst();
  }

  lemma NoPacks()
    ensures Loadable([]) && Names([]) == [] && Entities([]) == Members(CORE_ENTITIES) && "drone" !in Entities([])
  {
    hide ValidId;
  }

  lemma FewTypes()
    ensures forall taken :: NewTypes([], taken)
    ensures "drone" !in Entities([]) ==> NewTypes(["drone"], Entities([]))
    ensures forall name: string :: name !in [] && (name in ["a"] <==> name == "a")
  {
    PlainNames();
    hide ValidId, Entities, TrimSpace;
  }

  lemma RefersToMore(d: Decl, types: set<string>, more: set<string>)
    requires RefersTo(d, types) && types <= more
    ensures RefersTo(d, more)
  {
    hide ValidId, LayerKind, ViewId, TrimSpace, Blank;
  }

  /** Packs that refer to the core and themselves load in any order. */
  lemma SelfContainedPacksLoadAnyhow(ds: seq<Decl>, es: seq<Decl>)
    requires Rearranged(ds, es) && Loadable(ds)
    requires forall d :: d in ds ==> RefersTo(d, Members(CORE_ENTITIES) + Members(OwnTypes(d)))
    ensures Loadable(es)
  {
    hide Loadable, RefersTo, OwnTypes;
    SameMembers(ds, es);
    forall i | 0 <= i < |es| ensures RefersTo(es[i], Entities(es[..i + 1])) {
      assert es[i] in es && es[..i + 1] == es[..i] + [es[i]];
      TypesOneMore(es[..i], es[i]);
      RefersToMore(es[i], Members(CORE_ENTITIES) + Members(OwnTypes(es[i])), Entities(es[..i + 1]));
    }
    OnlyReferencesFeelOrder(ds, es);
  }

  // ---------- the registry is closed ----------

  /** Whether a type name is registered. */
  method AllowsEntityType(r: Registry, name: string) returns (ok: bool)
    ensures ok <==> Allows(r, name)
  {
    for i := 0 to |r.entityTypes|
      invariant forall k :: 0 <= k < i ==> r.entityTypes[k].name != name
    {
      if r.entityTypes[i].name == name {
        return true;
      }
    }
    return false;
  }

  ghost predicate Allows(r: Registry, name: string) {
    exists spec :: spec in r.entityTypes && spec.name == name
  }

  function SpecNames(specs: seq<TypeSpec>): seq<string> {
    seq(|specs|, i requires 0 <= i < |specs| => specs[i].name)
  }

  /** The packs that the declarations were built into. */
  ghost predicate AllBuilt(ds: seq<Decl>, packs: seq<Pack>) {
    |packs| == |ds| && forall i :: 0 <= i < |ds| ==> Built(ds[i], packs[i])
  }

  lemma BuiltFront(ds: seq<Decl>, packs: seq<Pack>)
    requires AllBuilt(ds, packs) && ds != []
    ensures AllBuilt(ds[..|ds| - 1], packs[..|packs| - 1]) && Built(ds[|ds| - 1], packs[|packs| - 1])
  {
    hide Built;
  }

  lemma BuiltSorted(d: Decl, pack: Pack)
    requires Built(d, pack)
    ensures Rearranged(pack.entityTypes, OwnTypes(d)) && Rearranged(pack.edgeTypes, OwnEdges(d))
  {
    LessIsOrder();
    SortSorts(OwnTypes(d), Less);
    SortSorts(OwnEdges(d), Less);
    hide OwnTypes, OwnEdges, LayersOf, DetectorsOf, ViewsOf, QueriesOf, Less, Sort, InOrder, PackName;
  }

  lemma SpecNamesOf(specs: seq<TypeSpec>, names: seq<string>, source: string)
    ensures SpecNames(specs + Specs(names, source)) == SpecNames(specs) + names
  {
  }

  /** The registered names are the core's and the declared ones. */
  lemma {:induction false} RegisteredNames(ds: seq<Decl>, packs: seq<Pack>)
    requires AllBuilt(ds, packs)
    ensures Rearranged(SpecNames(MergedAll(packs).entityTypes), CORE_ENTITIES + AllTypes(ds))
    ensures Rearranged(SpecNames(MergedAll(packs).edgeTypes), CORE_EDGES + AllEdges(ds))
    decreases |ds|
  {
    if ds == [] {
      CoreNames(packs);
    } else {
      LastPack(ds, packs);
      hide *;
      var front, before := ds[..|ds| - 1], packs[..|packs| - 1];
      BuiltFront(ds, packs);
      RegisteredNames(front, before);
      var r := MergedAll(before);
      var d, pack := ds[|ds| - 1], packs[|packs| - 1];
      RearrangedJoin(SpecNames(r.entityTypes), CORE_ENTITIES, AllTypes(front), pack.entityTypes, OwnTypes(d));
      RearrangedJoin(SpecNames(r.edgeTypes), CORE_EDGES, AllEdges(front), pack.edgeTypes, OwnEdges(d));
    }
  }

  lemma RearrangedJoin(a: seq<string>, core: seq<string>, b: seq<string>, c: seq<string>, d: seq<string>)
    requires Rearranged(a, core + b) && Rearranged(c, d)
    ensures Rearranged(a + c, core + (b + d))
  {
  }

  lemma SameSize(ds: seq<Decl>, packs: seq<Pack>)
    requires AllBuilt(ds, packs)
    ensures |packs| == |ds|
  {
  }

  lemma LastPack(ds: seq<Decl>, packs: seq<Pack>)
    requires AllBuilt(ds, packs) && ds != []
    ensures var d, pack := ds[|ds| - 1], packs[|packs| - 1];
            var front, r := ds[..|ds| - 1], MergedAll(packs[..|packs| - 1]);
            && Rearranged(pack.entityTypes, OwnTypes(d)) && Rearranged(pack.edgeTypes, OwnEdges(d))
            && AllTypes(ds) == AllTypes(front) + OwnTypes(d) && AllEdges(ds) == AllEdges(front) + OwnEdges(d)
            && SpecNames(MergedAll(packs).entityTypes) == SpecNames(r.entityTypes) + pack.entityTypes
            && SpecNames(MergedAll(packs).edgeTypes) == SpecNames(r.edgeTypes) + pack.edgeTypes
  {
    hide *;
    SameSize(ds, packs);
    var d, pack := ds[|ds| - 1], packs[|packs| - 1];
    var front, before := ds[..|ds| - 1], packs[..|packs| - 1];
    BuiltFront(ds, packs);
    assert ds == front + [d] && packs == before + [pack];
    BuiltSorted(d, pack);
    TypesOneMore(front, d);
    NamesOneMoreMerged(before, pack);
  }

  lemma CoreNames(packs: seq<Pack>)
    requires packs == []
    ensures SpecNames(MergedAll(packs).entityTypes) == CORE_ENTITIES + AllTypes([])
    ensures SpecNames(MergedAll(packs).edgeTypes) == CORE_EDGES + AllEdges([])
  {
  }

  lemma NamesOneMoreMerged(before: seq<Pack>, pack: Pack)
    ensures SpecNames(MergedAll(before + [pack]).entityTypes) ==
            SpecNames(MergedAll(before).entityTypes) + pack.entityTypes
    ensures SpecNames(MergedAll(before + [pack]).edgeTypes) == SpecNames(MergedAll(before).edgeTypes) + pack.edgeTypes
  {
    var r := MergedAll(before);
    assert (before + [pack])[..|before|] == before;
    SpecNamesOf(r.entityTypes, pack.entityTypes, SourceOf(pack.name));
    SpecNamesOf(r.edgeTypes, pack.edgeTypes, SourceOf(pack.name));
    hide SpecNames, Specs;
  }

  lemma AllowsRegistered(r: Registry, name: string)
    ensures Allows(r, name) <==> name in SpecNames(r.entityTypes)
  {
    if Allows(r, name) {
      var spec :| spec in r.entityTypes && spec.name == name;
      var i :| 0 <= i < |r.entityTypes| && r.entityTypes[i] == spec;
      assert SpecNames(r.entityTypes)[i] == name;
    }
    if name in SpecNames(r.entityTypes) {
      var i :| 0 <= i < |r.entityTypes| && SpecNames(r.entityTypes)[i] == name;
      assert r.entityTypes[i] in r.entityTypes;
    }
  }

  /** Exactly the core types and the declared types are allowed. */
  lemma AllowedTypes(ds: seq<Decl>, packs: seq<Pack>, name: string)
    requires AllBuilt(ds, packs)
    ensures Allows(MergedAll(packs), name) <==> name in Entities(ds)
  {
    hide AllBuilt, MergedAll, SpecNames, Allows;
    RegisteredNames(ds, packs);
    AllowsRegistered(MergedAll(packs), name);
    SameMembers(SpecNames(MergedAll(packs).entityTypes), CORE_ENTITIES + AllTypes(ds));
    hide AllTypes;
  }

  lemma {:induction false} EntitiesGrow(ds: seq<Decl>, n: nat)
    requires n <= |ds|
    ensures Entities(ds[..n]) <= Entities(ds)
    decreases |ds|
  {
    if n == |ds| {
      assert ds[..n] == ds;
    } else {
      var front := ds[..|ds| - 1];
      assert ds == front + [ds[|ds| - 1]];
      TypesOneMore(front, ds[|ds| - 1]);
      hide Entities;
      EntitiesGrow(front, n);
      assert front[..n] == ds[..n];
    }
  }

  /** What a pack contributes refers to known types only. */
  ghost predicate ClosedPack(pack: Pack, types: set<string>) {
    && (forall v :: v in pack.views ==> v.entityType in types)
    && (forall l :: l in pack.mapLayers && l.decl.kind == "overlay" ==> Known(l.decl.entityTypes, types))
  }

  lemma BuiltIsClosed(d: Decl, pack: Pack, types: set<string>)
    requires Built(d, pack) && RefersTo(d, types)
    ensures ClosedPack(pack, types)
  {
    hide ValidId, TrimSpace, Blank, OwnTypes, OwnEdges, Less, InOrder, SortStrings, PackName;
    SameMembers(pack.mapLayers, LayersOf(d));
    forall v | v in pack.views ensures v.entityType in types {
      var i :| 0 <= i < |pack.views| && pack.views[i] == v;
      assert ViewOk(d.views[i], types);
    }
    forall l | l in pack.mapLayers && l.decl.kind == "overlay" ensures Known(l.decl.entityTypes, types) {
      var i :| 0 <= i < |d.layers| && LayersOf(d)[i] == l;
      assert LayerOk(d.layers[i], types);
    }
  }

  /** The views and layers of the registry are those of its packs, besides the core's map. */
  lemma {:induction false} MergedContents(packs: seq<Pack>)
    ensures forall v :: v in MergedAll(packs).views ==> exists p :: p in packs && v in p.views
    ensures forall l :: l in MergedAll(packs).mapLayers ==>
              l == CORE_LAYER || exists p :: p in packs && l in p.mapLayers
    ensures MergedAll(packs).packs == packs
    decreases |packs|
  {
    if packs != [] {
      var front, pack := packs[..|packs| - 1], packs[|packs| - 1];
      assert MergedAll(packs) == Merged(MergedAll(front), pack);
      hide MergedAll, Specs;
      MergedContents(front);
      assert packs == front + [pack];
      assert pack in packs && forall p :: p in front ==> p in packs;
    }
  }

  /** Each registered type is the core's, or a pack's under that pack's source. */
  ghost predicate Owned(spec: TypeSpec, core: seq<string>, packs: seq<Pack>) {
    || (spec.source == "core" && spec.name in core)
    || (exists p :: p in packs && spec.source == SourceOf(p.name)
                    && (spec.name in p.entityTypes || spec.name in p.edgeTypes))
  }

  lemma {:induction false} MergedOwners(packs: seq<Pack>)
    ensures forall s :: s in MergedAll(packs).entityTypes ==> Owned(s, CORE_ENTITIES, packs)
    ensures forall s :: s in MergedAll(packs).edgeTypes ==> Owned(s, CORE_EDGES, packs)
    decreases |packs|
  {
    if packs != [] {
      var front, pack := packs[..|packs| - 1], packs[|packs| - 1];
      assert MergedAll(packs) == Merged(MergedAll(front), pack);
      hide MergedAll;
      MergedOwners(front);
      assert packs == front + [pack];
      assert pack in packs && forall p :: p in front ==> p in packs;
    }
  }

  /** MAIN RESULT.  The registry of a loaded directory is closed: no entity type, edge type or pack
      name comes twice, and each type is owned by the core or a pack; every view's type and every
      overlay's types, trimmed, are allowed; and so is every type a declared edge joins. */
  lemma RegistryIsClosed(ds: seq<Decl>, packs: seq<Pack>)
    requires Loadable(ds) && AllBuilt(ds, packs)
    ensures var r := MergedAll(packs);
            && NoDuplicates(SpecNames(r.entityTypes)) && NoDuplicates(SpecNames(r.edgeTypes))
            && NoDuplicates(seq(|packs|, i requires 0 <= i < |packs| => packs[i].name))
            && (forall s :: s in r.entityTypes ==> Owned(s, CORE_ENTITIES, packs))
            && (forall s :: s in r.edgeTypes ==> Owned(s, CORE_EDGES, packs))
            && (forall v :: v in r.views ==> Allows(r, v.entityType))
            && (forall l, t :: l in r.mapLayers && l.decl.kind == "overlay" && t in l.decl.entityTypes ==>
                  Allows(r, TrimSpace(t)))
    ensures forall d, e, t :: d in ds && e in d.edgeTypes && (t in e.srcTypes || t in e.dstTypes) ==>
              Allows(MergedAll(packs), TrimSpace(t))
  {
    hide *;
    LoadableIff(ds);
    DistinctNames(ds, packs);
    MergedOwners(packs);
    ClosedPacks(ds, packs);
    EdgesAreClosed(ds, packs);
  }

  lemma DistinctNames(ds: seq<Decl>, packs: seq<Pack>)
    requires ConsistentNames(ds) && AllBuilt(ds, packs)
    ensures NoDuplicates(SpecNames(MergedAll(packs).entityTypes)) && NoDuplicates(SpecNames(MergedAll(packs).edgeTypes))
    ensures NoDuplicates(seq(|packs|, i requires 0 <= i < |packs| => packs[i].name))
  {
    ConsistentParts(ds);
    PackNames(ds, packs);
    hide *;
    RegisteredNames(ds, packs);
    StillDistinct(SpecNames(MergedAll(packs).entityTypes), CORE_ENTITIES + AllTypes(ds));
    StillDistinct(SpecNames(MergedAll(packs).edgeTypes), CORE_EDGES + AllEdges(ds));
  }

  lemma StillDistinct(a: seq<string>, b: seq<string>)
    requires Rearranged(a, b) && NoDuplicates(b)
    ensures NoDuplicates(a)
  {
    RearrangedDistinct(a, b);
  }

  lemma ConsistentParts(ds: seq<Decl>)
    requires ConsistentNames(ds)
    ensures NoDuplicates(CORE_ENTITIES + AllTypes(ds)) && NoDuplicates(CORE_EDGES + AllEdges(ds))
    ensures NoDuplicates(Names(ds))
  {
    hide NoDuplicates, AllTypes, AllEdges, Names;
  }

  lemma PackNames(ds: seq<Decl>, packs: seq<Pack>)
    requires AllBuilt(ds, packs)
    ensures seq(|packs|, i requires 0 <= i < |packs| => packs[i].name) == Names(ds)
  {
    forall i | 0 <= i < |ds| ensures packs[i].name == PackName(ds[i]) {
      BuiltName(ds[i], packs[i]);
    }
    hide Built, PackName;
  }

  /** What pack `i` refers to is allowed in the end. */
  lemma RefersToAllowed(ds: seq<Decl>, i: nat)
    requires RefersBack(ds) && i < |ds|
    ensures RefersTo(ds[i], Entities(ds))
  {
    hide RefersTo, Entities;
    EntitiesGrow(ds, i + 1);
    RefersToMore(ds[i], Entities(ds[..i + 1]), Entities(ds));
  }

  lemma ClosedPacks(ds: seq<Decl>, packs: seq<Pack>)
    requires RefersBack(ds) && AllBuilt(ds, packs)
    ensures var r := MergedAll(packs);
            && (forall v :: v in r.views ==> Allows(r, v.entityType))
            && (forall l, t :: l in r.mapLayers && l.decl.kind == "overlay" && t in l.decl.entityTypes ==>
                  Allows(r, TrimSpace(t)))
  {
    forall name ensures Allows(MergedAll(packs), name) <==> name in Entities(ds) {
      AllowedTypes(ds, packs, name);
    }
    MergedContents(packs);
    forall i | 0 <= i < |packs| ensures ClosedPack(packs[i], Entities(ds)) {
      RefersToAllowed(ds, i);
      BuiltIsClosed(ds[i], packs[i], Entities(ds));
    }
    hide RefersBack, AllBuilt, MergedAll, Allows, Entities, TrimSpace;
  }

  lemma EdgesAreClosed(ds: seq<Decl>, packs: seq<Pack>)
    requires RefersBack(ds) && AllBuilt(ds, packs)
    ensures forall d, e, t :: d in ds && e in d.edgeTypes && (t in e.srcTypes || t in e.dstTypes) ==>
              Allows(MergedAll(packs), TrimSpace(t))
  {
    forall d, e, t | d in ds && e in d.edgeTypes && (t in e.srcTypes || t in e.dstTypes)
      ensures Allows(MergedAll(packs), TrimSpace(t))
    {
      var i :| 0 <= i < |ds| && ds[i] == d;
      RefersToAllowed(ds, i);
      hide MergedAll, Allows, AllBuilt, Entities, LayerOk, ViewOk, RefersBack, TrimSpace;
      assert EdgeOk(e, Entities(ds));
      AllowedTypes(ds, packs, TrimSpace(t));
    }
  }
}
