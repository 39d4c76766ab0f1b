/** What a pack must be by itself, what it is turned into, and what the registry holds in the end, told
    by the fields of the declarations. */
module PackContents {
  import opened Ordering
  import opened Packs
  import opened Text

  // ---------- identifiers and queries ----------

  /** An identifier starts with a small letter and goes on with small letters, digits, `_` and `-`. */
  lemma ValidIdIff(id: string)
    ensures ValidId(id) <==>
            && id != "" && id[0] in "abcdefghijklmnopqrstuvwxyz"
            && forall c :: c in id ==> c in "abcdefghijklmnopqrstuvwxyz0123456789_-"
  {
    forall c: char ensures 'a' <= c <= 'z' <==> c in "abcdefghijklmnopqrstuvwxyz" {
      SmallLetters(c);
    }
    forall c: char ensures IdChar(c) <==> c in "abcdefghijklmnopqrstuvwxyz0123456789_-" {
      SmallLetters(c);
      var letters, digits := "abcdefghijklmnopqrstuvwxyz", "0123456789";
      assert "abcdefghijklmnopqrstuvwxyz0123456789_-" == letters + digits + "_-";
      assert '0' <= c <= '9' <==> c in digits by { Digits(c); }
    }
  }

  lemma SmallLetters(c: char)
    ensures 'a' <= c <= 'z' <==> c in "abcdefghijklmnopqrstuvwxyz"
  {
    var letters := "abcdefghijklmnopqrstuvwxyz";
    if 'a' <= c <= 'z' {
      assert letters[c as int - 'a' as int] == c;
    }
  }

  lemma Digits(c: char)
    ensures '0' <= c <= '9' <==> c in "0123456789"
  {
    var digits := "0123456789";
    if '0' <= c <= '9' {
      assert digits[c as int - '0' as int] == c;
    }
  }

  /** The text holds the part somewhere. */
  ghost predicate Holds(text: string, part: string) {
    exists before, after :: text == before + part + after
  }

  lemma ContainsAt(before: string, part: string, after: string)
    ensures Contains(before + part + after, part)
  {
    var text := before + part + after;
    assert text[|before|..] == part + after;
  }

  lemma HoldsAt(text: string, part: string, i: nat)
    requires i <= |text| && part <= text[i..]
    ensures Holds(text, part)
  {
    var after := text[i..][|part|..];
    assert text == text[..i] + part + after;
  }

  lemma ContainsIff(text: string, part: string)
    ensures Contains(text, part) <==> Holds(text, part)
  {
    if i :| 0 <= i <= |text| && part <= text[i..] {
      HoldsAt(text, part, i);
    }
    if before, after :| text == before + part + after {
      ContainsAt(before, part, after);
    }
    hide Contains;
  }

  /** A query is taken exactly if it starts with `select` or `with`, whatever the case, holds no semicolon, and
      none of nine words that write, set off by blanks. */
  lemma ReadOnlyIff(query: string)
    ensures var n := ToLower(TrimSpace(query));
            ReadOnlySql(query) <==>
              && n != "" && !Holds(n, ";") && ("select " <= n || "with " <= n)
              && forall word ::
                   word in {"insert", "update", "delete", "drop", "alter", "attach", "detach", "pragma", "replace"} ==>
                     !Holds(" " + n + " ", " " + word + " ")
  {
    var n := ToLower(TrimSpace(query));
    LowerIs(TrimSpace(query));
    hide TrimSpace, ToLower, Contains;
    SemicolonHeld(n);
    forall word ensures Contains(" " + n + " ", word) <==> Holds(" " + n + " ", word) {
      ContainsIff(" " + n + " ", word);
    }
    hide Holds;
    assert " " + "insert" + " " == " insert " && " " + "update" + " " == " update "
           && " " + "delete" + " " == " delete "
           && " " + "drop" + " " == " drop " && " " + "alter" + " " == " alter " && " " + "attach" + " " == " attach "
           && " " + "detach" + " " == " detach " && " " + "pragma" + " " == " pragma "
           && " " + "replace" + " " == " replace ";
  }

  lemma SemicolonHeld(n: string)
    ensures ';' in n <==> Holds(n, ";")
  {
    if ';' in n {
      var i :| 0 <= i < |n| && n[i] == ';';
      assert n == n[..i] + ";" + n[i + 1..];
    }
    if before, after :| n == before + ";" + after {
      assert n[|before|] == ';';
    }
  }

  // ---------- declarations ----------

  /** What a pack must meet by itself: a name, if need be that of its directory, a version, the one schema
      version, and fine detectors and queries. */
  lemma FineAlone(d: Decl)
    ensures LocallyOk(d) <==>
            && (!Blank(d.name) || !Blank(d.dir)) && !Blank(d.version)
            && (TrimSpace(d.schemaVersion) == "" || TrimSpace(d.schemaVersion) == "v1")
            && (forall x :: x in d.detectors ==>
                  && ValidId(TrimSpace(x.id)) && ReadOnlySql(TrimSpace(x.pattern))
                  && ToLower(TrimSpace(x.severity)) in ["low", "medium", "high", "critical"])
            && (forall q :: q in d.queries ==>
                  ValidId(TrimSpace(q.id)) && ReadOnlySql(TrimSpace(if Blank(q.sql) then q.query else q.sql)))
  {
    hide ValidId, ReadOnlySql, ToLower, TrimSpace, Blank;
  }

  /** What a pack must meet given the types known so far. */
  lemma RefersToIff(d: Decl, types: set<string>)
    ensures RefersTo(d, types) <==>
            && (forall e :: e in d.edgeTypes ==>
                  && e.srcTypes != [] && e.dstTypes != []
                  && forall t :: t in e.srcTypes + e.dstTypes ==> TrimSpace(t) in types)
            && (forall v :: v in d.views ==>
                  ValidId(if Blank(v.id) then v.file else TrimSpace(v.id)) && TrimSpace(v.entityType) in types)
            && (forall l :: l in d.layers ==>
                  && ValidId(TrimSpace(l.id)) && !Blank(l.name)
                  && (|| (l.kind == "basemap" && !Blank(l.url))
                      || (&& (Blank(l.kind) || l.kind == "overlay")
                          && TrimSpace(l.geometrySource) == "entity_geometry" && l.entityTypes != []
                          && TrimSpace(l.render) in ["point", "line", "polygon", "track", "heatmap"]
                          && forall t :: t in l.entityTypes ==> TrimSpace(t) in types)))
  {
    BasemapIsFilled();
    hide ValidId, TrimSpace, Blank;
    forall e | e in d.edgeTypes
      ensures EdgeOk(e, types) <==> && e.srcTypes != [] && e.dstTypes != []
                                    && forall t :: t in e.srcTypes + e.dstTypes ==> TrimSpace(t) in types {
    }
  }

  lemma BasemapIsFilled()
    ensures !Blank("basemap") && !Blank("overlay")
  {
  }

  /** What a declaration is turned into, field by field; only the layers are sorted, by their ids. */
  lemma BuiltFields(d: Decl, pack: Pack)
    requires Built(d, pack)
    ensures pack.name == (if Blank(d.name) then d.dir else d.name) && pack.version == d.version
    ensures |pack.detectors| == |d.detectors|
    ensures forall i :: 0 <= i < |d.detectors| ==>
              pack.detectors[i] ==
              Detector(TrimSpace(d.detectors[i].id), ToLower(TrimSpace(d.detectors[i].severity)),
                       TrimSpace(d.detectors[i].pattern), "pack/" + pack.name)
    ensures |pack.views| == |d.views|
    ensures forall i :: 0 <= i < |d.views| ==>
              pack.views[i] ==
              View(if Blank(d.views[i].id) then d.views[i].file else TrimSpace(d.views[i].id),
                   TrimSpace(d.views[i].entityType), "pack/" + pack.name)
    ensures |pack.queries| == |d.queries|
    ensures forall i :: 0 <= i < |d.queries| ==>
              pack.queries[i] ==
              Query(TrimSpace(d.queries[i].id),
                    TrimSpace(if Blank(d.queries[i].sql) then d.queries[i].query else d.queries[i].sql),
                    "pack/" + pack.name)
    ensures |pack.mapLayers| == |d.layers|
    ensures forall l :: l in pack.mapLayers <==>
              exists x :: x in d.layers && l == Layer(
                x.(id := TrimSpace(x.id), kind := if Blank(x.kind) then "overlay" else x.kind), "pack/" + pack.name)
    ensures forall i, j :: 0 <= i < j < |pack.mapLayers| ==>
              !Less(pack.mapLayers[j].decl.id, pack.mapLayers[i].decl.id)
  {
    SameMembers(pack.mapLayers, LayersOf(d));
    LayerMembers(d);
    assert |pack.mapLayers| == |multiset(pack.mapLayers)| == |multiset(LayersOf(d))| == |LayersOf(d)|;
    hide TrimSpace, Blank, ToLower, SortStrings, OwnTypes, OwnEdges, Less;
    forall i, j | 0 <= i < j < |pack.mapLayers| ensures !Less(pack.mapLayers[j].decl.id, pack.mapLayers[i].decl.id) {
      assert !LayerBefore(pack.mapLayers[j], pack.mapLayers[i]);
    }
    hide LayersOf, InOrder;
  }

  lemma LayerMembers(d: Decl)
    ensures |LayersOf(d)| == |d.layers|
    ensures forall l :: l in LayersOf(d) <==>
              exists x :: x in d.layers && l == Layer(
                x.(id := TrimSpace(x.id), kind := if Blank(x.kind) then "overlay" else x.kind),
                "pack/" + if Blank(d.name) then d.dir else d.name)
  {
    hide TrimSpace, Blank;
    forall x | x in d.layers ensures LayerFor(x, SourceOf(PackName(d))) in LayersOf(d) {
      var i :| 0 <= i < |d.layers| && d.layers[i] == x;
      assert LayersOf(d)[i] == LayerFor(x, SourceOf(PackName(d)));
    }
  }

  // ---------- the registry ----------

  function Flat<T>(packs: seq<Pack>, part: Pack -> seq<T>): seq<T> {
    if packs == [] then [] else part(packs[0]) + Flat(packs[1..], part)
  }

  lemma {:induction false} FlatMore<T>(packs: seq<Pack>, pack: Pack, part: Pack -> seq<T>)
    ensures Flat(packs + [pack], part) == Flat(packs, part) + part(pack)
  {
    if packs == [] {
      assert [pack][1..] == [];
      assert part(pack) + [] == [] + part(pack);
    } else {
      assert (packs + [pack])[1..] == packs[1..] + [pack];
      FlatMore(packs[1..], pack, part);
    }
  }

  function Sourced(names: seq<string>, source: string): seq<TypeSpec> {
    if names == [] then [] else [TypeSpec(names[0], source)] + Sourced(names[1..], source)
  }

  lemma {:induction false} SpecsAre(names: seq<string>, source: string)
    ensures Specs(names, source) == Sourced(names, source)
  {
    if names != [] {
      SpecsAre(names[1..], source);
      assert Specs(names, source) == [TypeSpec(names[0], source)] + Specs(names[1..], source);
    }
  }

  function EntitiesOf(p: Pack): seq<TypeSpec> { Sourced(p.entityTypes, "pack/" + p.name) }
  function EdgesOf(p: Pack): seq<TypeSpec> { Sourced(p.edgeTypes, "pack/" + p.name) }
  function LayersIn(p: Pack): seq<Layer> { p.mapLayers }
  function DetectorsIn(p: Pack): seq<Detector> { p.detectors }
  function ViewsIn(p: Pack): seq<View> { p.views }
  function QueriesIn(p: Pack): seq<Query> { p.queries }

  lemma Appended<T>(core: seq<T>, front: seq<Pack>, pack: Pack, part: Pack -> seq<T>)
    ensures (core + Flat(front, part)) + part(pack) == core + Flat(front + [pack], part)
  {
    FlatMore(front, pack, part);
  }

  /** The registry holds the core types and the core's base map, and after them what the packs hold. */
  ghost predicate HoldsPacks(r: Registry, packs: seq<Pack>) {
    && r.packs == packs
    && r.entityTypes == Sourced(["agent", "task", "trace", "topic", "correlation", "location", "area"], "core")
                        + Flat(packs, EntitiesOf)
    && r.edgeTypes == Sourced(["sent", "responded", "spans", "mentions", "member_of", "delegated_to", "observed_at",
                               "in_area"], "core") + Flat(packs, EdgesOf)
    && r.mapLayers == [CORE_LAYER] + Flat(packs, LayersIn)
    && r.detectors == [] + Flat(packs, DetectorsIn) && r.views == [] + Flat(packs, ViewsIn)
    && r.queries == [] + Flat(packs, QueriesIn)
  }

  lemma HoldsMore(r: Registry, front: seq<Pack>, pack: Pack)
    requires HoldsPacks(r, front)
    ensures HoldsPacks(Merged(r, pack), front + [pack])
  {
    MergedSources(r, pack);
    hide Flat, Sourced, Specs, Merged, EntitiesOf, EdgesOf, LayersIn, DetectorsIn, ViewsIn, QueriesIn;
    Appended(Sourced(["agent", "task", "trace", "topic", "correlation", "location", "area"], "core"),
             front, pack, EntitiesOf);
    Appended(Sourced(["sent", "responded", "spans", "mentions", "member_of", "delegated_to", "observed_at",
                      "in_area"], "core"), front, pack, EdgesOf);
    Appended([CORE_LAYER], front, pack, LayersIn);
    Appended([], front, pack, DetectorsIn);
    Appended([], front, pack, ViewsIn);
    Appended([], front, pack, QueriesIn);
  }

  lemma HoldsCore()
    ensures HoldsPacks(CoreRegistry(), [])
  {
    SpecsAre(CORE_ENTITIES, "core");
    SpecsAre(CORE_EDGES, "core");
    hide Specs, Sourced;
  }

  /** MAIN RESULT.  The registry holds the core types and the core's base map, and after them everything that
      the packs hold, pack by pack in the order of loading, nothing lost and nothing added; every type is
      listed under the source of its pack. */
  lemma {:induction false} RegistryHolds(packs: seq<Pack>)
    ensures HoldsPacks(MergedAll(packs), packs)
    decreases |packs|
  {
    if packs == [] {
      HoldsCore();
    } else {
      hide HoldsPacks, Merged;
      var front, pack := packs[..|packs| - 1], packs[|packs| - 1];
      assert packs == front + [pack];
      RegistryHolds(front);
      HoldsMore(MergedAll(front), front, pack);
    }
  }

  lemma MergedSources(r: Registry, pack: Pack)
    ensures var m := Merged(r, pack);
            && m.packs == r.packs + [pack]
            && m.entityTypes == r.entityTypes + EntitiesOf(pack) && m.edgeTypes == r.edgeTypes + EdgesOf(pack)
            && m.mapLayers == r.mapLayers + LayersIn(pack) && m.detectors == r.detectors + DetectorsIn(pack)
            && m.views == r.views + ViewsIn(pack) && m.queries == r.queries + QueriesIn(pack)
  {
    SpecsAre(pack.entityTypes, "pack/" + pack.name);
    SpecsAre(pack.edgeTypes, "pack/" + pack.name);
    hide Specs, Sourced;
  }
}
