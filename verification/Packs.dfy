/** Loading domain packs: every directory with a pack file adds entity types, edge types, layers,
    detectors, views and queries to a registry that starts with the core types.

    A directory comes as its decoded declarations, or as broken if a file in it cannot be read
    or decoded. */
module Packs {
  import opened Ordering
  import opened Text

  // ---------- declarations ----------

  datatype EdgeDecl = EdgeDecl(id: string, srcTypes: seq<string>, dstTypes: seq<string>)

  datatype LayerDecl = LayerDecl(
    id: string, name: string, kind: string, url: string, geometrySource: string, entityTypes: seq<string>,
    render: string)

  datatype DetectorDecl = DetectorDecl(id: string, severity: string, pattern: string)

  /** `file` is the file's name without its extension. */
  datatype ViewDecl = ViewDecl(id: string, file: string, entityType: string)

  datatype QueryDecl = QueryDecl(id: string, sql: string, query: string)

  datatype Decl = Decl(
    dir: string, name: string, version: string, schemaVersion: string, entityTypes: seq<string>,
    edgeTypes: seq<EdgeDecl>, layers: seq<LayerDecl>, detectors: seq<DetectorDecl>, views: seq<ViewDecl>,
    queries: seq<QueryDecl>)

  datatype Entry =
    | PlainFile(name: string) | NoPack(name: string) | Broken(name: string) | Described(name: string, decl: Decl)

  datatype Listing = NoRoot | Unreadable | Entries(entries: seq<Entry>)

  // ---------- the registry ----------

  datatype TypeSpec = TypeSpec(name: string, source: string)
  datatype Layer = Layer(decl: LayerDecl, source: string)
  datatype Detector = Detector(id: string, severity: string, query: string, source: string)
  datatype View = View(id: string, entityType: string, source: string)
  datatype Query = Query(id: string, sql: string, source: string)

  datatype Pack = Pack(
    name: string, version: string, entityTypes: seq<string>, edgeTypes: seq<string>, mapLayers: seq<Layer>,
    detectors: seq<Detector>, views: seq<View>, queries: seq<Query>)

  datatype Registry = Registry(
    packs: seq<Pack>, entityTypes: seq<TypeSpec>, edgeTypes: seq<TypeSpec>, mapLayers: seq<Layer>,
    detectors: seq<Detector>, views: seq<View>, queries: seq<Query>)

  const NOTHING := Registry([], [], [], [], [], [], [])

  const CORE_ENTITIES: seq<string> := ["agent", "task", "trace", "topic", "correlation", "location", "area"]
  const CORE_EDGES: seq<string> :=
    ["sent", "responded", "spans", "mentions", "member_of", "delegated_to", "observed_at", "in_area"]
  const CORE_LAYER := Layer(
    LayerDecl("osm", "OpenStreetMap", "basemap", "https://{s}.tile.openstreetmap.org/{z}/{x}/{y}.png",
              "", [], ""), "core")

  // ---------- what a declaration must meet by itself ----------

  predicate IdChar(c: char) {
    'a' <= c <= 'z' || '0' <= c <= '9' || c == '_' || c == '-'
  }

  predicate ValidId(id: string) {
    id != "" && 'a' <= id[0] <= 'z' && forall c :: c in id ==> IdChar(c)
  }

  const RENDERS: set<string> := {"point", "line", "polygon", "track", "heatmap"}
  const SEVERITIES: set<string> := {"low", "medium", "high", "critical"}
  const WRITING_WORDS: set<string> :=
    {" insert ", " update ", " delete ", " drop ", " alter ", " attach ", " detach ", " pragma ", " replace "}

  predicate Contains(text: string, part: string) {
    exists i :: 0 <= i <= |text| && part <= text[i..]
  }

  predicate ReadOnlySql(query: string) {
    var normalized := ToLower(TrimSpace(query));
    && !Blank(query) && ';' !in normalized
    && ("select " <= normalized || "with " <= normalized)
    && forall word :: word in WRITING_WORDS ==> !Contains(" " + normalized + " ", word)
  }

  function PackName(d: Decl): string {
    if Blank(d.name) then d.dir else d.name
  }

  function SourceOf(name: string): string {
    "pack/" + name
  }

  predicate HeaderOk(d: Decl) {
    !Blank(PackName(d)) && !Blank(d.version) && TrimSpace(d.schemaVersion) in {"", "v1"}
  }

  predicate DetectorOk(d: DetectorDecl) {
    ValidId(TrimSpace(d.id)) && ToLower(TrimSpace(d.severity)) in SEVERITIES && ReadOnlySql(TrimSpace(d.pattern))
  }

  function QueryText(q: QueryDecl): string {
    if Blank(q.sql) then TrimSpace(q.query) else TrimSpace(q.sql)
  }

  predicate QueryOk(q: QueryDecl) {
    ValidId(TrimSpace(q.id)) && ReadOnlySql(QueryText(q))
  }

  // ---------- what it must meet given the types known so far ----------

  function Trimmed(ids: seq<string>): seq<string> {
    seq(|ids|, i requires 0 <= i < |ids| => TrimSpace(ids[i]))
  }

  function EdgeIds(edges: seq<EdgeDecl>): seq<string> {
    seq(|edges|, i requires 0 <= i < |edges| => TrimSpace(edges[i].id))
  }

  function Members(s: seq<string>): set<string> {
    set x | x in s
  }

  ghost predicate NewTypes(ids: seq<string>, taken: set<string>) {
    NoDuplicates(ids) && forall id :: id in ids ==> ValidId(id) && id !in taken
  }

  ghost predicate Known(refs: seq<string>, types: set<string>) {
    forall r :: r in refs ==> TrimSpace(r) in types
  }

  ghost predicate EdgeOk(e: EdgeDecl, types: set<string>) {
    e.srcTypes != [] && e.dstTypes != [] && Known(e.srcTypes, types) && Known(e.dstTypes, types)
  }

  function LayerKind(l: LayerDecl): string {
    if Blank(l.kind) then "overlay" else l.kind
  }

  ghost predicate LayerOk(l: LayerDecl, types: set<string>) {
    && ValidId(TrimSpace(l.id)) && !Blank(l.name)
    && if LayerKind(l) == "basemap" then !Blank(l.url)
       else && LayerKind(l) == "overlay" && TrimSpace(l.geometrySource) == "entity_geometry"
            && l.entityTypes != [] && TrimSpace(l.render) in RENDERS && Known(l.entityTypes, types)
  }

  function ViewId(v: ViewDecl): string {
    if Blank(v.id) then v.file else TrimSpace(v.id)
  }

  ghost predicate ViewOk(v: ViewDecl, types: set<string>) {
    ValidId(ViewId(v)) && TrimSpace(v.entityType) in types
  }

  /** Everything the pack refers to is among these types. */
  ghost predicate RefersTo(d: Decl, types: set<string>) {
    && (forall e :: e in d.edgeTypes ==> EdgeOk(e, types))
    && (forall l :: l in d.layers ==> LayerOk(l, types))
    && (forall v :: v in d.views ==> ViewOk(v, types))
  }

  ghost predicate LocallyOk(d: Decl) {
    && HeaderOk(d)
    && (forall x :: x in d.detectors ==> DetectorOk(x))
    && (forall q :: q in d.queries ==> QueryOk(q))
  }

  function OwnTypes(d: Decl): seq<string> {
    Trimmed(d.entityTypes)
  }

  function OwnEdges(d: Decl): seq<string> {
    EdgeIds(d.edgeTypes)
  }

  ghost predicate PackOk(d: Decl, entities: set<string>, edges: set<string>) {
    && LocallyOk(d)
    && NewTypes(OwnTypes(d), entities) && NewTypes(OwnEdges(d), edges)
    && RefersTo(d, entities + Members(OwnTypes(d)))
  }

  // ---------- what it is turned into ----------

  function LayerFor(l: LayerDecl, source: string): Layer {
    Layer(l.(id := TrimSpace(l.id), kind := LayerKind(l)), source)
  }

  function LayersOf(d: Decl): seq<Layer> {
    seq(|d.layers|, i requires 0 <= i < |d.layers| => LayerFor(d.layers[i], SourceOf(PackName(d))))
  }

  function DetectorsOf(d: Decl): seq<Detector> {
    seq(|d.detectors|, i requires 0 <= i < |d.detectors| =>
      var x := d.detectors[i];
      Detector(TrimSpace(x.id), ToLower(TrimSpace(x.severity)), TrimSpace(x.pattern), SourceOf(PackName(d))))
  }

  function ViewsOf(d: Decl): seq<View> {
    seq(|d.views|, i requires 0 <= i < |d.views| =>
      View(ViewId(d.views[i]), TrimSpace(d.views[i].entityType), SourceOf(PackName(d))))
  }

  function QueriesOf(d: Decl): seq<Query> {
    seq(|d.queries|, i requires 0 <= i < |d.queries| =>
      Query(TrimSpace(d.queries[i].id), QueryText(d.queries[i]), SourceOf(PackName(d))))
  }

  predicate LayerBefore(a: Layer, b: Layer) {
    Less(a.decl.id, b.decl.id)
  }

  ghost predicate Built(d: Decl, pack: Pack) {
    && pack.name == PackName(d) && pack.version == d.version
    && pack.entityTypes == SortStrings(OwnTypes(d)) && pack.edgeTypes == SortStrings(OwnEdges(d))
    && Rearranged(pack.mapLayers, LayersOf(d)) && InOrder(pack.mapLayers, LayerBefore)
    && pack.detectors == DetectorsOf(d) && pack.views == ViewsOf(d) && pack.queries == QueriesOf(d)
  }

  function Specs(names: seq<string>, source: string): seq<TypeSpec> {
    seq(|names|, i requires 0 <= i < |names| => TypeSpec(names[i], source))
  }

  function CoreRegistry(): Registry {
    Registry([], Specs(CORE_ENTITIES, "core"), Specs(CORE_EDGES, "core"), [CORE_LAYER], [], [], [])
  }

  function Merged(r: Registry, pack: Pack): Registry {
    Registry(
      r.packs + [pack],
      r.entityTypes + Specs(pack.entityTypes, SourceOf(pack.name)),
      r.edgeTypes + Specs(pack.edgeTypes, SourceOf(pack.name)),
      r.mapLayers + pack.mapLayers, r.detectors + pack.detectors, r.views + pack.views, r.queries + pack.queries)
  }

  function MergedAll(packs: seq<Pack>): Registry {
    if packs == [] then CoreRegistry() else Merged(MergedAll(packs[..|packs| - 1]), packs[|packs| - 1])
  }

  // ---------- several packs ----------

  function AllTypes(ds: seq<Decl>): seq<string> {
    if ds == [] then [] else AllTypes(ds[..|ds| - 1]) + OwnTypes(ds[|ds| - 1])
  }

  function AllEdges(ds: seq<Decl>): seq<string> {
    if ds == [] then [] else AllEdges(ds[..|ds| - 1]) + OwnEdges(ds[|ds| - 1])
  }

  function Entities(ds: seq<Decl>): set<string> {
    Members(CORE_ENTITIES) + Members(AllTypes(ds))
  }

  function Edges(ds: seq<Decl>): set<string> {
    Members(CORE_EDGES) + Members(AllEdges(ds))
  }

  function Names(ds: seq<Decl>): seq<string> {
    seq(|ds|, i requires 0 <= i < |ds| => PackName(ds[i]))
  }

  /** Each pack is fine after the packs before it, and no name comes twice. */
  ghost predicate Loadable(ds: seq<Decl>) {
    && (forall i :: 0 <= i < |ds| ==> PackOk(ds[i], Entities(ds[..i]), Edges(ds[..i])))
    && NoDuplicates(Names(ds))
  }

  lemma LoadableOneMore(ds: seq<Decl>, d: Decl)
    ensures Loadable(ds + [d]) <==>
            Loadable(ds) && PackOk(d, Entities(ds), Edges(ds)) && PackName(d) !in Names(ds)
  {
    hide PackOk, Entities, Edges, PackName;
    var all := ds + [d];
    assert all[..|ds|] == ds && all[|ds|] == d;
    assert forall i :: 0 <= i < |ds| ==> all[..i] == ds[..i] && all[i] == ds[i];
    assert Names(all) == Names(ds) + [PackName(d)];
    assert forall i :: 0 <= i < |ds| ==> Names(ds)[i] in Names(ds);
    assert NoDuplicates(Names(all)) <==> NoDuplicates(Names(ds)) && PackName(d) !in Names(ds) by {
      LastIsNew(Names(ds), PackName(d));
    }
    if Loadable(all) {
      assert PackOk(all[|ds|], Entities(all[..|ds|]), Edges(all[..|ds|]));
    }
  }

  lemma LastIsNew(s: seq<string>, x: string)
    ensures NoDuplicates(s + [x]) <==> NoDuplicates(s) && x !in s
  {
    var all := s + [x];
    if NoDuplicates(all) {
      forall i | 0 <= i < |s| ensures s[i] != x {
        assert all[i] != all[|s|];
      }
      forall i, j | 0 <= i < j < |s| ensures s[i] != s[j] {
        assert all[i] != all[j];
      }
    }
  }

  // ---------- loading ----------

  class Loader {
    var registry: Registry
    var entitySeen: map<string, string>
    var edgeSeen: map<string, string>
    var packSeen: map<string, string>

    /** The state after loading these packs. */
    ghost predicate Holds(ds: seq<Decl>)
      reads this
    {
      && entitySeen.Keys == Entities(ds) && edgeSeen.Keys == Edges(ds) && packSeen.Keys == Members(Names(ds))
      && registry == MergedAll(registry.packs)
      && |registry.packs| == |ds| && forall i :: 0 <= i < |ds| ==> Built(ds[i], registry.packs[i])
    }

    constructor ()
      ensures Holds([])
    {
      registry := CoreRegistry();
      entitySeen := map x | x in CORE_ENTITIES :: "core";
      edgeSeen := map x | x in CORE_EDGES :: "core";
      packSeen := map[];
    }

    method AddMapLayers(d: Decl, types: set<string>) returns (layers: seq<Layer>, ok: bool)
      ensures ok <==> forall l :: l in d.layers ==> LayerOk(l, types)
      ensures ok ==> Rearranged(layers, LayersOf(d)) && InOrder(layers, LayerBefore)
    {
      hide ValidId, Blank, TrimSpace;
      layers := [];
      for i := 0 to |d.layers|
        invariant layers == LayersOf(d)[..i]
        invariant forall k :: 0 <= k < i ==> LayerOk(d.layers[k], types)
      {
        var layer := d.layers[i];
        assert layer in d.layers;
        layer := layer.(id := TrimSpace(layer.id));
        if !ValidId(layer.id) || Blank(layer.name) {
          return [], false;
        }
        if Blank(layer.kind) {
          layer := layer.(kind := "overlay");
        }
        if layer.kind == "basemap" {
          if Blank(layer.url) {
            return [], false;
          }
        } else if layer.kind == "overlay" {
          if TrimSpace(layer.geometrySource) != "entity_geometry" || layer.entityTypes == []
             || TrimSpace(layer.render) !in RENDERS {
            return [], false;
          }
          for k := 0 to |layer.entityTypes|
            invariant forall j :: 0 <= j < k ==> TrimSpace(layer.entityTypes[j]) in types
          {
            if TrimSpace(layer.entityTypes[k]) !in types {
              assert layer.entityTypes[k] in d.layers[i].entityTypes;
              return [], false;
            }
          }
        } else {
          return [], false;
        }
        layers := layers + [Layer(layer, SourceOf(PackName(d)))];
      }
      assert layers == LayersOf(d);
      LessIsOrder();
      layers := SortSlice(layers, LayerBefore);
      ok := true;
    }

    method AddDetectors(d: Decl) returns (detectors: seq<Detector>, ok: bool)
      ensures ok <==> forall x :: x in d.detectors ==> DetectorOk(x)
      ensures ok ==> detectors == DetectorsOf(d)
    {
      hide ValidId, TrimSpace, ReadOnlySql, ToLower;
      detectors := [];
      for i := 0 to |d.detectors|
        invariant detectors == DetectorsOf(d)[..i]
        invariant forall k :: 0 <= k < i ==> DetectorOk(d.detectors[k])
      {
        var raw := d.detectors[i];
        assert raw in d.detectors;
        var id, severity, query := TrimSpace(raw.id), ToLower(TrimSpace(raw.severity)), TrimSpace(raw.pattern);
        if !ValidId(id) || severity !in SEVERITIES || !ReadOnlySql(query) {
          return [], false;
        }
        detectors := detectors + [Detector(id, severity, query, SourceOf(PackName(d)))];
      }
      ok := true;
    }

    method AddViews(d: Decl, types: set<string>) returns (views: seq<View>, ok: bool)
      ensures ok <==> forall v :: v in d.views ==> ViewOk(v, types)
      ensures ok ==> views == ViewsOf(d)
    {
      hide ValidId, TrimSpace;
      views := [];
      for i := 0 to |d.views|
        invariant views == ViewsOf(d)[..i]
        invariant forall k :: 0 <= k < i ==> ViewOk(d.views[k], types)
      {
        var raw := d.views[i];
        assert raw in d.views;
        var id := TrimSpace(raw.id);
        if id == "" {
          id := raw.file;
        }
        if !ValidId(id) || TrimSpace(raw.entityType) !in types {
          return [], false;
        }
        views := views + [View(id, TrimSpace(raw.entityType), SourceOf(PackName(d)))];
      }
      ok := true;
    }

    method AddQueries(d: Decl) returns (queries: seq<Query>, ok: bool)
      ensures ok <==> forall q :: q in d.queries ==> QueryOk(q)
      ensures ok ==> queries == QueriesOf(d)
    {
      hide ValidId, TrimSpace, ReadOnlySql;
      queries := [];
      for i := 0 to |d.queries|
        invariant queries == QueriesOf(d)[..i]
        invariant forall k :: 0 <= k < i ==> QueryOk(d.queries[k])
      {
        var raw := d.queries[i];
        assert raw in d.queries;
        var id, text := TrimSpace(raw.id), TrimSpace(raw.sql);
        if text == "" {
          text := TrimSpace(raw.query);
        }
        if !ValidId(id) || !ReadOnlySql(text) {
          return [], false;
        }
        queries := queries + [Query(id, text, SourceOf(PackName(d)))];
      }
      ok := true;
    }

    /** The pack's own entity types, each valid and new. */
    method AddTypes(ids: seq<string>, seen: set<string>) returns (own: seq<string>, known: set<string>, ok: bool)
      ensures ok <==> NewTypes(Trimmed(ids), seen)
      ensures ok ==> own == Trimmed(ids) && known == seen + Members(own)
    {
      hide ValidId, TrimSpace;
      own, known := [], seen;
      for i := 0 to |ids|
        invariant own == Trimmed(ids)[..i] && known == seen + Members(own) && NewTypes(own, seen)
      {
        var id := TrimSpace(ids[i]);
        assert id == Trimmed(ids)[i] && id in Trimmed(ids);
        if !ValidId(id) {
          return [], {}, false;
        }
        if id in known {
          TakenAlready(Trimmed(ids), i, seen);
          return [], {}, false;
        }
        LastIsNew(own, id);
        assert Trimmed(ids)[..i + 1] == own + [id];
        own, known := own + [id], known + {id};
      }
      assert Trimmed(ids)[..|ids|] == Trimmed(ids);
      ok := true;
    }

    /** The pack's own edge types, each valid, new, and between known entity types. */
    method AddEdges(edges: seq<EdgeDecl>, seen: set<string>, types: set<string>) returns (own: seq<string>, ok: bool)
      ensures ok <==> NewTypes(EdgeIds(edges), seen) && forall e :: e in edges ==> EdgeOk(e, types)
      ensures ok ==> own == EdgeIds(edges)
    {
      hide ValidId, TrimSpace;
      own := [];
      var known := seen;
      for i := 0 to |edges|
        invariant own == EdgeIds(edges)[..i] && known == seen + Members(own) && NewTypes(own, seen)
        invariant forall k :: 0 <= k < i ==> EdgeOk(edges[k], types)
      {
        var e := edges[i];
        var id := TrimSpace(e.id);
        assert e in edges && id == EdgeIds(edges)[i] && id in EdgeIds(edges);
        if !ValidId(id) {
          return [], false;
        }
        if id in known {
          TakenAlready(EdgeIds(edges), i, seen);
          return [], false;
        }
        if e.srcTypes == [] || e.dstTypes == [] {
          return [], false;
        }
        var srcKnown := AllKnown(e.srcTypes, types);
        if !srcKnown {
          return [], false;
        }
        var dstKnown := AllKnown(e.dstTypes, types);
        if !dstKnown {
          return [], false;
        }
        LastIsNew(own, id);
        assert EdgeIds(edges)[..i + 1] == own + [id];
        own, known := own + [id], known + {id};
      }
      assert EdgeIds(edges)[..|edges|] == EdgeIds(edges);
      ok := true;
    }

    method AllKnown(refs: seq<string>, types: set<string>) returns (ok: bool)
      ensures ok <==> Known(refs, types)
    {
      for i := 0 to |refs|
        invariant forall k :: 0 <= k < i ==> TrimSpace(refs[k]) in types
      {
        if TrimSpace(refs[i]) !in types {
          assert refs[i] in refs;
          return false;
        }
      }
      return true;
    }

    method LoadPack(d: Decl) returns (pack: Pack, ok: bool)
      ensures ok <==> PackOk(d, entitySeen.Keys, edgeSeen.Keys)
      ensures ok ==> Built(d, pack)
    {
      hide NewTypes, EdgeOk, LayerOk, ViewOk, DetectorOk, QueryOk, Trimmed, EdgeIds, Blank, TrimSpace, Members,
           LayersOf, DetectorsOf, ViewsOf, QueriesOf, InOrder, Rearranged, SortStrings;
      pack := Pack(PackName(d), d.version, [], [], [], [], [], []);
      if Blank(PackName(d)) || Blank(d.version) {
        return pack, false;
      }
      var schemaVersion := TrimSpace(d.schemaVersion);
      if schemaVersion == "" {
        schemaVersion := "v1";
      }
      if schemaVersion != "v1" {
        return pack, false;
      }
      var types, known, edges, layers, detectors, views, queries;
      types, known, ok := AddTypes(d.entityTypes, entitySeen.Keys);
      if !ok { return; }
      edges, ok := AddEdges(d.edgeTypes, edgeSeen.Keys, known);
      if !ok { return; }
      layers, ok := AddMapLayers(d, known);
      if !ok { return; }
      detectors, ok := AddDetectors(d);
      if !ok { return; }
      views, ok := AddViews(d, known);
      if !ok { return; }
      queries, ok := AddQueries(d);
      pack := Pack(PackName(d), d.version, SortStrings(types), SortStrings(edges), layers, detectors, views, queries);
    }

    /** Adds a loaded pack to the registry and its types to the known ones. */
    method MergePack(pack: Pack)
      modifies this`registry, this`entitySeen, this`edgeSeen
      ensures registry == Merged(old(registry), pack)
      ensures entitySeen.Keys == old(entitySeen.Keys) + Members(pack.entityTypes)
      ensures edgeSeen.Keys == old(edgeSeen.Keys) + Members(pack.edgeTypes)
    {
      var source := SourceOf(pack.name);
      var r := registry;
      r := r.(mapLayers := r.mapLayers + pack.mapLayers, detectors := r.detectors + pack.detectors,
              views := r.views + pack.views, queries := r.queries + pack.queries);
      for i := 0 to |pack.entityTypes|
        invariant r.entityTypes == registry.entityTypes + Specs(pack.entityTypes, source)[..i]
        invariant r == Merged(registry, pack).(
          packs := registry.packs, entityTypes := r.entityTypes, edgeTypes := registry.edgeTypes)
        invariant entitySeen.Keys == old(entitySeen.Keys) + Members(pack.entityTypes[..i])
        invariant registry == old(registry) && edgeSeen == old(edgeSeen)
      {
        var name := pack.entityTypes[i];
        assert pack.entityTypes[..i + 1] == pack.entityTypes[..i] + [name];
        entitySeen := entitySeen[name := source];
        r := r.(entityTypes := r.entityTypes + [TypeSpec(name, source)]);
      }
      assert pack.entityTypes[..|pack.entityTypes|] == pack.entityTypes;
      for i := 0 to |pack.edgeTypes|
        invariant r.edgeTypes == registry.edgeTypes + Specs(pack.edgeTypes, source)[..i]
        invariant r == Merged(registry, pack).(packs := registry.packs, edgeTypes := r.edgeTypes)
        invariant edgeSeen.Keys == old(edgeSeen.Keys) + Members(pack.edgeTypes[..i])
        invariant registry == old(registry) && entitySeen.Keys == old(entitySeen.Keys) + Members(pack.entityTypes)
      {
        var name := pack.edgeTypes[i];
        assert pack.edgeTypes[..i + 1] == pack.edgeTypes[..i] + [name];
        edgeSeen := edgeSeen[name := source];
        r := r.(edgeTypes := r.edgeTypes + [TypeSpec(name, source)]);
      }
      assert pack.edgeTypes[..|pack.edgeTypes|] == pack.edgeTypes;
      registry := r.(packs := r.packs + [pack]);
    }

    /** One directory: refused, or loaded after the packs before it. */
    method AddPack(d: Decl, ghost ds: seq<Decl>) returns (ok: bool)
      requires Holds(ds) && Loadable(ds)
      modifies this
      ensures ok <==> Loadable(ds + [d])
      ensures ok ==> Holds(ds + [d])
    {
      hide *;
      HoldsParts(ds);
      LoadableOneMore(ds, d);
      var pack;
      pack, ok := LoadPack(d);
      if !ok {
        return false;
      }
      BuiltName(d, pack);
      TypesAreNew(d, entitySeen.Keys, edgeSeen.Keys);
      assert pack.name in packSeen <==> PackName(d) in Names(ds) by { MembersHolds(Names(ds), PackName(d)); }
      if pack.name in packSeen {
        return false;
      }
      packSeen := packSeen[pack.name := d.dir];
      ghost var before := registry;
      MergePack(pack);
      StillHolds(ds, d, before, pack);
      return true;
    }

    lemma HoldsParts(ds: seq<Decl>)
      requires Holds(ds)
      ensures entitySeen.Keys == Entities(ds) && edgeSeen.Keys == Edges(ds) && packSeen.Keys == Members(Names(ds))
      ensures registry == MergedAll(registry.packs) && |registry.packs| == |ds|
      ensures forall i :: 0 <= i < |ds| ==> Built(ds[i], registry.packs[i])
    {
      hide Entities, Edges, Names, Members, MergedAll, Built;
    }

    lemma StillHolds(ds: seq<Decl>, d: Decl, before: Registry, pack: Pack)
      requires before == MergedAll(before.packs) && |before.packs| == |ds|
      requires forall i :: 0 <= i < |ds| ==> Built(ds[i], before.packs[i])
      requires Built(d, pack) && NoDuplicates(OwnTypes(d)) && NoDuplicates(OwnEdges(d))
      requires registry == Merged(before, pack)
      requires entitySeen.Keys == Entities(ds) + Members(pack.entityTypes)
      requires edgeSeen.Keys == Edges(ds) + Members(pack.edgeTypes)
      requires packSeen.Keys == Members(Names(ds)) + {PackName(d)}
      ensures Holds(ds + [d])
    {
      hide *;
      TypesOneMore(ds, d);
      BuiltTypes(d, pack);
      MergedOne(before, pack);
      NamesOneMore(ds, d);
      MergedPacks(before, pack);
      assert forall i :: 0 <= i < |ds| ==> registry.packs[i] == before.packs[i] && (ds + [d])[i] == ds[i];
      HoldsFromParts(ds + [d]);
    }

    lemma HoldsFromParts(ds: seq<Decl>)
      requires entitySeen.Keys == Entities(ds) && edgeSeen.Keys == Edges(ds) && packSeen.Keys == Members(Names(ds))
      requires registry == MergedAll(registry.packs) && |registry.packs| == |ds|
      requires forall i :: 0 <= i < |ds| ==> Built(ds[i], registry.packs[i])
      ensures Holds(ds)
    {
      hide Entities, Edges, Names, Members, MergedAll, Built;
    }
  }

  lemma MergedPacks(before: Registry, pack: Pack)
    ensures Merged(before, pack).packs == before.packs + [pack]
  {
  }

  lemma MergedOne(before: Registry, pack: Pack)
    requires before == MergedAll(before.packs)
    ensures Merged(before, pack) == MergedAll(before.packs + [pack])
  {
    assert (before.packs + [pack])[..|before.packs|] == before.packs;
  }

  lemma NamesOneMore(ds: seq<Decl>, d: Decl)
    ensures Names(ds + [d]) == Names(ds) + [PackName(d)]
    ensures Members(Names(ds + [d])) == Members(Names(ds)) + {PackName(d)}
  {
    hide PackName;
    assert Names(ds + [d]) == Names(ds) + [PackName(d)];
  }

  lemma TypesAreNew(d: Decl, entities: set<string>, edges: set<string>)
    requires PackOk(d, entities, edges)
    ensures NoDuplicates(OwnTypes(d)) && NoDuplicates(OwnEdges(d))
  {
    hide OwnTypes, OwnEdges;
  }

  lemma BuiltName(d: Decl, pack: Pack)
    requires Built(d, pack)
    ensures pack.name == PackName(d)
  {
    hide PackName, SortStrings, InOrder, LayersOf, DetectorsOf, ViewsOf, QueriesOf;
  }

  lemma BuiltTypes(d: Decl, pack: Pack)
    requires Built(d, pack) && NoDuplicates(OwnTypes(d)) && NoDuplicates(OwnEdges(d))
    ensures Members(pack.entityTypes) == Members(OwnTypes(d)) && Members(pack.edgeTypes) == Members(OwnEdges(d))
    ensures NoDuplicates(pack.entityTypes) && NoDuplicates(pack.edgeTypes)
  {
    StringsSorted(OwnTypes(d));
    StringsSorted(OwnEdges(d));
    LessIsOrder();
    hide PackName, OwnTypes, OwnEdges, SortStrings, InOrder, LayersOf, DetectorsOf, ViewsOf, QueriesOf, Less;
  }

  lemma MembersHolds(s: seq<string>, x: string)
    ensures x in Members(s) <==> x in s
  {
  }

  lemma TypesOneMore(ds: seq<Decl>, d: Decl)
    ensures AllTypes(ds + [d]) == AllTypes(ds) + OwnTypes(d) && AllEdges(ds + [d]) == AllEdges(ds) + OwnEdges(d)
    ensures Entities(ds + [d]) == Entities(ds) + Members(OwnTypes(d))
    ensures Edges(ds + [d]) == Edges(ds) + Members(OwnEdges(d))
  {
    hide OwnTypes, OwnEdges;
    assert (ds + [d])[..|ds|] == ds;
  }

  lemma TakenAlready(ids: seq<string>, i: nat, seen: set<string>)
    requires i < |ids| && (ids[i] in seen || ids[i] in ids[..i])
    ensures !NewTypes(ids, seen)
  {
    hide ValidId;
    assert ids[i] in ids;
    if ids[i] in ids[..i] {
      var k :| 0 <= k < i && ids[k] == ids[i];
    }
  }

  // ---------- a whole directory ----------

  predicate EntryBefore(a: Entry, b: Entry) {
    Less(a.name, b.name)
  }

  /** The packs among these entries. */
  function Decls(entries: seq<Entry>): seq<Decl> {
    if entries == [] then []
    else
      var last := entries[|entries| - 1];
      Decls(entries[..|entries| - 1]) + if last.Described? then [last.decl] else []
  }

  ghost predicate SomeBroken(entries: seq<Entry>) {
    exists e :: e in entries && e.Broken?
  }

  lemma DeclsOneMore(entries: seq<Entry>, i: nat)
    requires i < |entries|
    ensures Decls(entries[..i + 1]) == Decls(entries[..i]) + if entries[i].Described? then [entries[i].decl] else []
    ensures SomeBroken(entries[..i + 1]) <==> SomeBroken(entries[..i]) || entries[i].Broken?
  {
    assert entries[..i + 1][..i] == entries[..i];
    assert entries[..i + 1] == entries[..i] + [entries[i]];
    assert entries[i] in entries[..i + 1];
  }

  lemma {:induction false} LoadablePrefix(entries: seq<Entry>, i: nat)
    requires i <= |entries| && Loadable(Decls(entries))
    ensures Loadable(Decls(entries[..i]))
    decreases |entries|
  {
    if i < |entries| {
      hide Loadable;
      var last := |entries| - 1;
      DeclsOneMore(entries, last);
      assert entries[..last + 1] == entries;
      if entries[last].Described? {
        LoadableOneMore(Decls(entries[..last]), entries[last].decl);
      } else {
        assert Decls(entries) == Decls(entries[..last]);
      }
      LoadablePrefix(entries[..last], i);
      assert entries[..last][..i] == entries[..i];
    } else {
      assert entries[..i] == entries;
    }
  }

  lemma BrokenPrefix(entries: seq<Entry>, i: nat)
    requires i <= |entries| && SomeBroken(entries[..i])
    ensures SomeBroken(entries)
  {
    var e :| e in entries[..i] && e.Broken?;
    assert e in entries;
  }

  /** Loads all packs of a directory in the order of the directory names, or nothing. */
  method LoadDir(listing: Listing) returns (registry: Registry, ok: bool)
    ensures listing.NoRoot? ==> ok && registry == CoreRegistry()
    ensures listing.Unreadable? ==> !ok
    ensures listing.Entries? ==>
              var sorted := Sort(listing.entries, EntryBefore);
              && ByName(listing.entries, sorted)
              && (ok <==> !SomeBroken(sorted) && Loadable(Decls(sorted)))
              && (ok ==>
                    && registry == MergedAll(registry.packs) && |registry.packs| == |Decls(sorted)|
                    && forall i :: 0 <= i < |registry.packs| ==> Built(Decls(sorted)[i], registry.packs[i]))
    ensures !ok ==> registry == NOTHING
  {
    var loader := new Loader();
    if listing.NoRoot? {
      return CoreRegistry(), true;
    }
    if listing.Unreadable? {
      return NOTHING, false;
    }
    var entries := Sort(listing.entries, EntryBefore);
    assert Loadable([]);
    hide *;
    InNameOrder(listing.entries);
    assert entries[..0] == [] && Decls([]) == [] && !SomeBroken([]) by { NoEntries(); }
    for i := 0 to |entries|
      invariant loader.Holds(Decls(entries[..i])) && Loadable(Decls(entries[..i])) && !SomeBroken(entries[..i])
    {
      DeclsOneMore(entries, i);
      var entry := entries[i];
      if entry.Broken? {
        BrokenPrefix(entries, i + 1);
        return NOTHING, false;
      }
      if entry.Described? {
        ok := loader.AddPack(entry.decl, Decls(entries[..i]));
        if !ok {
          if Loadable(Decls(entries)) {
            LoadablePrefix(entries, i + 1);
          }
          return NOTHING, false;
        }
      } else {
        assert Decls(entries[..i + 1]) == Decls(entries[..i]);
      }
    }
    assert entries[..|entries|] == entries;
    loader.HoldsParts(Decls(entries));
    return loader.registry, true;
  }

  /** The same entries, in the order of their names. */
  ghost predicate ByName(entries: seq<Entry>, sorted: seq<Entry>) {
    && multiset(sorted) == multiset(entries)
    && (forall i, j :: 0 <= i < j < |sorted| ==> !Less(sorted[j].name, sorted[i].name))
  }

  lemma InNameOrder(entries: seq<Entry>)
    ensures ByName(entries, Sort(entries, EntryBefore))
  {
    LessIsOrder();
    SortSorts(entries, EntryBefore);
    var sorted := Sort(entries, EntryBefore);
    hide Less, Sort, StrictWeak;
    forall i, j | 0 <= i < j < |sorted| ensures !Less(sorted[j].name, sorted[i].name) {
      assert !EntryBefore(sorted[j], sorted[i]);
    }
  }

  lemma NoEntries()
    ensures Decls([]) == [] && !SomeBroken([])
  {
  }
}
