/** Reading the entity graph: the bounded neighbourhood of an entity and the shortest path
    between two entities inside it.

    The edge table is a sequence of rows in any order, so what is proved holds for whatever
    order a query returns rows in.  Time windows are empty.
 */
module GraphReader {
  import opened Records
  import opened Text
  import G = GraphWriter

  type Edge = G.Edge

  datatype Row = Row(id: int, edge: Edge)

  datatype Db = Db(entities: set<string>, rows: seq<Row>)

  // ---------- the reference: trails ----------

  function Mirror(e: Edge): Edge {
    e.(src := e.dst, dst := e.src)
  }

  predicate Usable(edges: seq<Edge>, e: Edge) {
    e in edges || Mirror(e) in edges
  }

  /** A chain of edges from `u` to `v`, each of them stored or the mirror of a stored one. */
  predicate Trail(edges: seq<Edge>, t: seq<Edge>, u: string, v: string) {
    if t == [] then u == v
    else t[0].src == u && Usable(edges, t[0]) && Trail(edges, t[1..], t[0].dst, v)
  }

  ghost predicate Within(edges: seq<Edge>, u: string, v: string, n: nat) {
    exists t :: Trail(edges, t, u, v) && |t| <= n
  }

  // ---------- balls ----------

  function OtherEnd(e: Edge, u: string): string {
    if e.src == u then e.dst else e.src
  }

  function Neighbors(edges: seq<Edge>, u: string): set<string> {
    set e | e in edges && (e.src == u || e.dst == u) :: OtherEnd(e, u)
  }

  function Spread(edges: seq<Edge>, s: set<string>): set<string> {
    set w, v | w in s && v in Neighbors(edges, w) :: v
  }

  function Ball(edges: seq<Edge>, u: string, n: nat): set<string> {
    if n == 0 then {u}
    else Ball(edges, u, n - 1) + Spread(edges, Ball(edges, u, n - 1))
  }

  lemma {:induction false} BallGrows(edges: seq<Edge>, u: string, m: nat, n: nat)
    requires m <= n
    ensures Ball(edges, u, m) <= Ball(edges, u, n)
  {
    if m < n {
      BallGrows(edges, u, m, n - 1);
    }
  }

  lemma {:induction false} TrailExtends(edges: seq<Edge>, t: seq<Edge>, u: string, v: string, e: Edge)
    requires Trail(edges, t, u, v) && e.src == v && Usable(edges, e)
    ensures Trail(edges, t + [e], u, e.dst)
  {
    if t == [] {
      assert [e][1..] == [];
    } else {
      TrailExtends(edges, t[1..], t[0].dst, v, e);
      assert (t + [e])[1..] == t[1..] + [e];
    }
  }

  lemma {:induction false} TrailSplits(edges: seq<Edge>, t: seq<Edge>, u: string, v: string)
    requires Trail(edges, t, u, v) && t != []
    ensures var e := t[|t| - 1];
            Trail(edges, t[..|t| - 1], u, e.src) && Usable(edges, e) && e.dst == v
  {
    if |t| == 1 {
      assert t[1..] == [];
    } else {
      TrailSplits(edges, t[1..], t[0].dst, v);
      assert t[1..][..|t| - 2] == t[..|t| - 1][1..];
    }
  }

  lemma {:induction false} TrailInBall(edges: seq<Edge>, t: seq<Edge>, u: string, v: string)
    requires Trail(edges, t, u, v)
    ensures v in Ball(edges, u, |t|)
    decreases |t|
  {
    if t != [] {
      TrailSplits(edges, t, u, v);
      var e := t[|t| - 1];
      TrailInBall(edges, t[..|t| - 1], u, e.src);
      var stored := if e in edges then e else Mirror(e);
      assert v == OtherEnd(stored, e.src) || v == e.src;
      assert v in Neighbors(edges, e.src);
    }
  }

  /** Being neighbours is being joined by an edge in one direction or the other. */
  lemma NeighborStep(edges: seq<Edge>, w: string, v: string) returns (e: Edge)
    requires v in Neighbors(edges, w)
    ensures Usable(edges, e) && e.src == w && e.dst == v
  {
    var stored :| stored in edges && (stored.src == w || stored.dst == w) && OtherEnd(stored, w) == v;
    e := if stored.src == w then stored else Mirror(stored);
    assert Mirror(Mirror(stored)) == stored;
  }

  lemma {:induction false} BallHasTrail(edges: seq<Edge>, u: string, v: string, n: nat) returns (t: seq<Edge>)
    requires v in Ball(edges, u, n)
    ensures Trail(edges, t, u, v) && |t| <= n
    decreases n
  {
    hide Neighbors, Usable;
    if n == 0 {
      t := [];
    } else if v in Ball(edges, u, n - 1) {
      t := BallHasTrail(edges, u, v, n - 1);
    } else {
      var w :| w in Ball(edges, u, n - 1) && v in Neighbors(edges, w);
      t := BallHasTrail(edges, u, w, n - 1);
      var e := NeighborStep(edges, w, v);
      TrailExtends(edges, t, u, w, e);
      t := t + [e];
    }
  }

  lemma BallIsWithin(edges: seq<Edge>, u: string, v: string, n: nat)
    ensures v in Ball(edges, u, n) <==> Within(edges, u, v, n)
  {
    if v in Ball(edges, u, n) {
      var t := BallHasTrail(edges, u, v, n);
    }
    if Within(edges, u, v, n) {
      var t :| Trail(edges, t, u, v) && |t| <= n;
      TrailInBall(edges, t, u, v);
      BallGrows(edges, u, |t|, n);
    }
  }

  // ---------- the neighbourhood query ----------

  function ClampDepth(depth: int): nat {
    if depth <= 0 then 1 else if depth > 3 then 3 else depth
  }

  /** The values of a type filter that count. */
  function FilterValues(typeFilter: seq<string>): seq<string> {
    if typeFilter == [] then []
    else (if Blank(typeFilter[0]) then [] else [TrimSpace(typeFilter[0])]) + FilterValues(typeFilter[1..])
  }

  predicate Passes(typeFilter: seq<string>, kind: string) {
    FilterValues(typeFilter) == [] || kind in FilterValues(typeFilter)
  }

  /** Without a value that is not blank everything passes; else the kinds that are a value, trimmed. */
  lemma {:induction false} PassesIs(typeFilter: seq<string>, kind: string)
    ensures kind in FilterValues(typeFilter) <==> exists v :: v in typeFilter && !Blank(v) && TrimSpace(v) == kind
    ensures FilterValues(typeFilter) == [] <==> forall v :: v in typeFilter ==> Blank(v)
  {
    hide TrimSpace, Blank;
    if typeFilter != [] {
      PassesIs(typeFilter[1..], kind);
      assert typeFilter == [typeFilter[0]] + typeFilter[1..];
    }
  }

  predicate Stored(rows: seq<Row>, e: Edge) {
    exists r :: r in rows && r.edge == e
  }

  /** The edges of the rows that satisfy the type filter and, when `ids` is given, have both ends in it. */
  function Select(rows: seq<Row>, typeFilter: seq<string>, ids: Option<set<string>>): (edges: seq<Edge>)
    ensures forall e :: e in edges <==>
              && Stored(rows, e) && Passes(typeFilter, e.kind)
              && (ids.Some? ==> e.src in ids.value && e.dst in ids.value)
  {
    if rows == [] then []
    else
      var e := rows[0].edge;
      assert forall x :: Stored(rows, x) <==> x == e || Stored(rows[1..], x);
      (if Passes(typeFilter, e.kind) && (ids.Some? ==> e.src in ids.value && e.dst in ids.value) then [e] else [])
        + Select(rows[1..], typeFilter, ids)
  }

  /** The ids that the recursive query pairs with `depth`. */
  function Walk(edges: seq<Edge>, start: string, depth: nat): set<string> {
    if depth == 0 then {start}
    else Spread(edges, Walk(edges, start, depth - 1))
  }

  /** The ids of the whole `walk` relation up to a depth bound. */
  function WalkIds(edges: seq<Edge>, start: string, bound: nat): set<string> {
    Walk(edges, start, bound) + if bound == 0 then {} else WalkIds(edges, start, bound - 1)
  }

  function NeighborhoodIds(db: Db, start: string, depth: int, typeFilter: seq<string>): set<string> {
    WalkIds(Select(db.rows, typeFilter, None), start, ClampDepth(depth)) * db.entities
  }

  function NeighborhoodEdges(db: Db, start: string, depth: int, typeFilter: seq<string>): seq<Edge> {
    Select(db.rows, typeFilter, Some(NeighborhoodIds(db, start, depth, typeFilter)))
  }

  lemma SpreadUnion(edges: seq<Edge>, s: set<string>, t: set<string>)
    ensures Spread(edges, s + t) == Spread(edges, s) + Spread(edges, t)
  {
    hide Neighbors;
  }

  lemma {:induction false} WalkIsBall(edges: seq<Edge>, start: string, bound: nat)
    ensures WalkIds(edges, start, bound) == Ball(edges, start, bound)
    ensures bound > 0 ==> Ball(edges, start, bound) == {start} + Spread(edges, Ball(edges, start, bound - 1))
  {
    hide Neighbors, Spread;
    if bound == 1 {
      assert Walk(edges, start, 0) == {start} == WalkIds(edges, start, 0);
    } else if bound > 1 {
      WalkIsBall(edges, start, bound - 1);
      WalkIsBall(edges, start, bound - 2);
      SpreadUnion(edges, Walk(edges, start, bound - 1), Ball(edges, start, bound - 2));
    }
  }

  /** MAIN RESULT.  The neighbourhood is exactly the entities that a trail of filtered edges leads
      to, of at most one edge for depths below 1, of at most three for depths above 3, and of at
      most `depth` edges in between; its edges are exactly the filtered edges with both ends among
      them; and the filter lets everything through unless it holds a value that is not blank. */
  lemma NeighborhoodIsBall(db: Db, start: string, depth: int, typeFilter: seq<string>)
    ensures var filtered := Select(db.rows, typeFilter, None);
            var ids := NeighborhoodIds(db, start, depth, typeFilter);
            && (1 <= depth <= 3 ==> forall v :: v in ids <==> v in db.entities && Within(filtered, start, v, depth))
            && (depth <= 0 ==> forall v :: v in ids <==> v in db.entities && Within(filtered, start, v, 1))
            && (depth >= 3 ==> forall v :: v in ids <==> v in db.entities && Within(filtered, start, v, 3))
            && (forall e :: e in NeighborhoodEdges(db, start, depth, typeFilter) <==>
                  e in filtered && e.src in ids && e.dst in ids)
    ensures forall e :: e in Select(db.rows, typeFilter, None) <==>
              && Stored(db.rows, e)
              && ((forall v :: v in typeFilter ==> Blank(v))
                  || exists v :: v in typeFilter && !Blank(v) && TrimSpace(v) == e.kind)
  {
    NeighborhoodIsClampedBall(db, start, depth, typeFilter);
    forall e: Edge ensures Passes(typeFilter, e.kind) <==>
                       (forall v :: v in typeFilter ==> Blank(v))
                       || exists v :: v in typeFilter && !Blank(v) && TrimSpace(v) == e.kind {
      PassesIs(typeFilter, e.kind);
    }
    hide Blank, TrimSpace, Stored, Within, NeighborhoodIds, NeighborhoodEdges, Passes;
  }

  lemma NeighborhoodIsClampedBall(db: Db, start: string, depth: int, typeFilter: seq<string>)
    ensures var filtered := Select(db.rows, typeFilter, None);
            var ids := NeighborhoodIds(db, start, depth, typeFilter);
            && (forall v :: v in ids <==> v in db.entities && Within(filtered, start, v, ClampDepth(depth)))
            && (forall e :: e in NeighborhoodEdges(db, start, depth, typeFilter) <==>
                  e in filtered && e.src in ids && e.dst in ids)
  {
    var filtered := Select(db.rows, typeFilter, None);
    WalkIsBall(filtered, start, ClampDepth(depth));
    forall v
      ensures v in WalkIds(filtered, start, ClampDepth(depth)) <==> Within(filtered, start, v, ClampDepth(depth)) {
      BallIsWithin(filtered, start, v, ClampDepth(depth));
    }
  }

  /** A larger depth never loses an entity or an edge, nor does a wider type filter. */
  lemma NeighborhoodIsMonotone(db: Db, start: string, d: int, d': int, typeFilter: seq<string>)
    requires d <= d'
    ensures NeighborhoodIds(db, start, d, typeFilter) <= NeighborhoodIds(db, start, d', typeFilter)
    ensures forall e :: e in NeighborhoodEdges(db, start, d, typeFilter) ==>
                        e in NeighborhoodEdges(db, start, d', typeFilter)
  {
    var filtered := Select(db.rows, typeFilter, None);
    WalkIsBall(filtered, start, ClampDepth(d));
    WalkIsBall(filtered, start, ClampDepth(d'));
    BallGrows(filtered, start, ClampDepth(d), ClampDepth(d'));
  }

  // ---------- confining the search to the ball loses nothing ----------

  ghost predicate Induced(edges: seq<Edge>, inner: seq<Edge>, ids: set<string>) {
    forall e :: e in inner <==> e in edges && e.src in ids && e.dst in ids
  }

  lemma SpreadWithin(edges: seq<Edge>, inner: seq<Edge>, s: set<string>, ids: set<string>)
    requires Induced(edges, inner, ids) && s <= ids && Spread(edges, s) <= ids
    ensures Spread(inner, s) == Spread(edges, s)
  {
    forall w, v | w in s ensures v in Neighbors(edges, w) <==> v in Neighbors(inner, w) {
      if v in Neighbors(edges, w) {
        assert v in Spread(edges, s);
        var e :| e in edges && (e.src == w || e.dst == w) && OtherEnd(e, w) == v;
        assert e in inner;
      }
    }
  }

  lemma {:induction false} BallWithinBall(edges: seq<Edge>, inner: seq<Edge>, u: string, n: nat, bound: nat)
    requires n <= bound && Induced(edges, inner, Ball(edges, u, bound))
    ensures Ball(inner, u, n) == Ball(edges, u, n)
  {
    hide Neighbors, Spread;
    if n > 0 {
      BallWithinBall(edges, inner, u, n - 1, bound);
      BallGrows(edges, u, n - 1, bound);
      BallGrows(edges, u, n, bound);
      SpreadWithin(edges, inner, Ball(edges, u, n - 1), Ball(edges, u, bound));
    }
  }

  ghost predicate ClosedUnderEdges(db: Db) {
    forall r :: r in db.rows ==> r.edge.src in db.entities && r.edge.dst in db.entities
  }

  lemma {:induction false} BallOfEntities(db: Db, edges: seq<Edge>, u: string, n: nat)
    requires ClosedUnderEdges(db) && edges == Select(db.rows, [], None)
    ensures u in db.entities ==> Ball(edges, u, n) <= db.entities
    ensures u !in db.entities ==> Ball(edges, u, n) == {u}
  {
    if n > 0 {
      BallOfEntities(db, edges, u, n - 1);
    }
  }

  // ---------- breadth-first search ----------

  datatype Step = Step(id: string, depth: nat)

  function AdjacentTo(adj: map<string, seq<Edge>>, u: string): seq<Edge> {
    if u in adj then adj[u] else []
  }

  /** `list` holds the edges that lead out of `u`, stored or mirrored. */
  ghost predicate LeadsOut(edges: seq<Edge>, u: string, list: seq<Edge>) {
    && (forall e :: e in list ==> e.src == u && Usable(edges, e))
    && (forall v :: v in Neighbors(edges, u) ==> exists e :: e in list && e.dst == v)
  }

  /** Each edge that starts at `u` as it is, and each that ends there mirrored, in the order of the edges. */
  function Adjacent(edges: seq<Edge>, u: string): seq<Edge> {
    if edges == [] then []
    else
      var e := edges[|edges| - 1];
      Adjacent(edges[..|edges| - 1], u)
      + (if e.src == u then [e] else []) + (if e.dst == u then [Mirror(e)] else [])
  }

  lemma {:induction false} AdjacentLeadsOut(edges: seq<Edge>, u: string)
    ensures LeadsOut(edges, u, Adjacent(edges, u))
    decreases |edges|
  {
    if edges != [] {
      var front, e := edges[..|edges| - 1], edges[|edges| - 1];
      AdjacentLeadsOut(front, u);
      assert edges == front + [e];
      LeadsOutAfter(front, e, u, Adjacent(front, u), Adjacent(edges, u));
    }
  }

  lemma LeadsOutAfter(edges: seq<Edge>, e: Edge, u: string, list: seq<Edge>, list': seq<Edge>)
    requires LeadsOut(edges, u, list)
    requires list' == list + (if e.src == u then [e] else []) + (if e.dst == u then [Mirror(e)] else [])
    ensures LeadsOut(edges + [e], u, list')
  {
    assert Mirror(Mirror(e)) == e;
    forall v | v in Neighbors(edges + [e], u) ensures exists x :: x in list' && x.dst == v {
      var x :| x in edges + [e] && (x.src == u || x.dst == u) && OtherEnd(x, u) == v;
      if x in edges {
        assert v in Neighbors(edges, u);
        var y :| y in list && y.dst == v;
        assert y in list';
      } else {
        assert (if e.src == u then e else Mirror(e)) in list';
      }
    }
  }

  lemma AdjacentMore(edges: seq<Edge>, i: nat, u: string)
    requires i < |edges|
    ensures Adjacent(edges[..i + 1], u) ==
            Adjacent(edges[..i], u)
            + (if edges[i].src == u then [edges[i]] else []) + (if edges[i].dst == u then [Mirror(edges[i])] else [])
  {
    assert edges[..i + 1][..i] == edges[..i];
  }

  method BuildAdjacency(edges: seq<Edge>) returns (adj: map<string, seq<Edge>>)
    ensures forall u :: AdjacentTo(adj, u) == Adjacent(edges, u)
  {
    adj := map[];
    assert edges[..0] == [];
    for i := 0 to |edges|
      invariant forall u :: AdjacentTo(adj, u) == Adjacent(edges[..i], u)
    {
      hide Adjacent;
      var e := edges[i];
      forall u ensures Adjacent(edges[..i + 1], u) == Adjacent(edges[..i], u)
                         + (if e.src == u then [e] else []) + (if e.dst == u then [Mirror(e)] else []) {
        AdjacentMore(edges, i, u);
      }
      ghost var was := adj;
      adj := adj[e.src := AdjacentTo(adj, e.src) + [e]];
      assert forall u :: AdjacentTo(adj, u) == AdjacentTo(was, u) + if e.src == u then [e] else [];
      ghost var half := adj;
      var reverse := Mirror(e);
      adj := adj[reverse.src := AdjacentTo(adj, reverse.src) + [reverse]];
      assert forall u :: AdjacentTo(adj, u) == AdjacentTo(half, u) + if e.dst == u then [Mirror(e)] else [];
    }
    assert edges[..|edges|] == edges;
  }

  /** Every node carries its exact distance. */
  ghost predicate Exact(edges: seq<Edge>, src: string, depth: map<string, nat>) {
    && src in depth && depth[src] == 0
    && forall v :: v in depth ==>
         v in Ball(edges, src, depth[v]) && (depth[v] > 0 ==> v !in Ball(edges, src, depth[v] - 1))
  }

  /** The neighbours of every finished node short of the bound have been found. */
  ghost predicate Finished(edges: seq<Edge>, bound: nat, depth: map<string, nat>, done: set<string>) {
    && done <= depth.Keys
    && forall u, v :: u in done && depth[u] < bound && v in Neighbors(edges, u) ==>
         v in depth && depth[v] <= depth[u] + 1
  }

  /** Every node but the start has a parent one step nearer and the edge it was found by. */
  ghost predicate Linked(
      edges: seq<Edge>, src: string, depth: map<string, nat>,
      parentNode: map<string, string>, parentEdge: map<string, Edge>)
  {
    forall v :: v in depth && v != src ==>
      && v in parentNode && v in parentEdge && parentNode[v] in depth
      && depth[v] == depth[parentNode[v]] + 1
      && parentEdge[v].src == parentNode[v] && parentEdge[v].dst == v && Usable(edges, parentEdge[v])
  }

  /** The queue holds the open nodes, nearest first, within one level of each other. */
  ghost predicate Lined(queue: seq<Step>, depth: map<string, nat>, open: set<string>, low: nat) {
    && (forall i :: 0 <= i < |queue| ==>
          queue[i].id in open && queue[i].id in depth && queue[i].depth == depth[queue[i].id])
    && (forall u :: u in open ==> exists i :: 0 <= i < |queue| && queue[i].id == u)
    && (forall i, j :: 0 <= i < j < |queue| ==>
          queue[i].id != queue[j].id && queue[i].depth <= queue[j].depth)
    && (forall i :: 0 <= i < |queue| ==> low <= queue[i].depth <= low + 1)
  }

  lemma BallStep(edges: seq<Edge>, src: string, v: string, n: nat) returns (w: string)
    requires n > 0 && v in Ball(edges, src, n) && v !in Ball(edges, src, n - 1)
    ensures w in Ball(edges, src, n - 1) && v in Neighbors(edges, w)
  {
    hide Neighbors;
    w :| w in Ball(edges, src, n - 1) && v in Neighbors(edges, w);
  }

  /** While only nodes at depth `d` or more are unfinished, the ball of radius `d` is found. */
  lemma {:induction false} LevelFound(
      edges: seq<Edge>, src: string, bound: nat, depth: map<string, nat>, done: set<string>, d: nat, n: nat, v: string)
    requires Exact(edges, src, depth) && Finished(edges, bound, depth, done)
    requires n <= d <= bound && forall v :: v in depth && v !in done ==> depth[v] >= d
    requires v in Ball(edges, src, n)
    ensures v in depth && depth[v] <= n
    decreases n
  {
    hide Neighbors, Ball, Exact;
    if n == 0 {
      BallZero(edges, src, depth);
    } else {
      if v in Ball(edges, src, n - 1) {
        LevelFound(edges, src, bound, depth, done, d, n - 1, v);
      } else {
        var w := BallStep(edges, src, v, n);
        LevelFound(edges, src, bound, depth, done, d, n - 1, w);
        assert w in done && depth[w] < bound;
      }
    }
  }

  lemma BallZero(edges: seq<Edge>, src: string, depth: map<string, nat>)
    requires Exact(edges, src, depth)
    ensures Ball(edges, src, 0) == {src} && src in depth && depth[src] == 0
  {
  }

  lemma FoundExactly(edges: seq<Edge>, src: string, depth: map<string, nat>, u: string, v: string)
    requires Exact(edges, src, depth) && u in depth && v !in depth && v in Neighbors(edges, u)
    requires v !in Ball(edges, src, depth[u])
    ensures Exact(edges, src, depth[v := depth[u] + 1])
  {
    hide Neighbors;
    assert v in Spread(edges, Ball(edges, src, depth[u]));
  }

  lemma UsableLeadsToNeighbor(edges: seq<Edge>, e: Edge)
    requires Usable(edges, e)
    ensures e.dst in Neighbors(edges, e.src)
  {
    var stored := if e in edges then e else Mirror(e);
    assert OtherEnd(stored, e.src) == e.dst;
  }

  lemma LinedAfter(queue: seq<Step>, depth: map<string, nat>, open: set<string>, low: nat, v: string)
    requires Lined(queue, depth, open, low) && v !in depth
    ensures Lined(queue + [Step(v, low + 1)], depth[v := low + 1], open + {v}, low)
  {
    var queue' := queue + [Step(v, low + 1)];
    assert queue'[|queue|].id == v;
    forall u | u in open + {v} ensures exists i :: 0 <= i < |queue'| && queue'[i].id == u {
      if u in open {
        var i :| 0 <= i < |queue| && queue[i].id == u;
        assert queue'[i].id == u;
      }
    }
  }

  /** The state of the search while the node `cur` is being expanded. */
  ghost predicate Expanding(
      edges: seq<Edge>, src: string, bound: nat, cur: Step, done: set<string>, depth: map<string, nat>,
      queue: seq<Step>, parentNode: map<string, string>, parentEdge: map<string, Edge>)
  {
    && Exact(edges, src, depth) && Finished(edges, bound, depth, done)
    && Linked(edges, src, depth, parentNode, parentEdge)
    && cur.id in depth && cur.id !in done && depth[cur.id] == cur.depth
    && Lined(queue, depth, depth.Keys - done - {cur.id}, cur.depth)
    && forall u :: u in done ==> depth[u] <= cur.depth
  }

  lemma Discover(
      edges: seq<Edge>, src: string, bound: nat, cur: Step, done: set<string>, depth: map<string, nat>,
      queue: seq<Step>, parentNode: map<string, string>, parentEdge: map<string, Edge>, edge: Edge)
    requires Expanding(edges, src, bound, cur, done, depth, queue, parentNode, parentEdge)
    requires cur.depth < bound && edge.src == cur.id && Usable(edges, edge) && edge.dst !in depth
    ensures Expanding(edges, src, bound, cur, done, depth[edge.dst := cur.depth + 1],
              queue + [Step(edge.dst, cur.depth + 1)], parentNode[edge.dst := cur.id], parentEdge[edge.dst := edge])
  {
    hide Neighbors, Ball, Usable, Exact, Finished, Linked, Lined;
    var v := edge.dst;
    var depth' := depth[v := cur.depth + 1];
    var open := depth.Keys - done - {cur.id};
    LinedIsNoNearer(queue, depth, open, cur.depth);
    if v in Ball(edges, src, cur.depth) {
      LevelFound(edges, src, bound, depth, done, cur.depth, cur.depth, v);
      assert false;
    }
    UsableLeadsToNeighbor(edges, edge);
    FoundExactly(edges, src, depth, cur.id, v);
    FinishedAfter(edges, bound, depth, done, v, cur.depth + 1);
    LinkedAfter(edges, src, depth, parentNode, parentEdge, edge);
    LinedAfter(queue, depth, open, cur.depth, v);
    assert depth'.Keys - done - {cur.id} == open + {v};
    assert done <= depth.Keys;
  }

  lemma FinishedAfter(edges: seq<Edge>, bound: nat, depth: map<string, nat>, done: set<string>, v: string, n: nat)
    requires Finished(edges, bound, depth, done) && v !in depth
    ensures Finished(edges, bound, depth[v := n], done)
    ensures done <= depth.Keys
  {
  }

  lemma LinkedAfter(
      edges: seq<Edge>, src: string, depth: map<string, nat>,
      parentNode: map<string, string>, parentEdge: map<string, Edge>, edge: Edge)
    requires Linked(edges, src, depth, parentNode, parentEdge)
    requires edge.src in depth && edge.dst !in depth && Usable(edges, edge)
    ensures Linked(edges, src, depth[edge.dst := depth[edge.src] + 1],
                   parentNode[edge.dst := edge.src], parentEdge[edge.dst := edge])
  {
  }

  lemma LinedIsNoNearer(queue: seq<Step>, depth: map<string, nat>, open: set<string>, low: nat)
    requires Lined(queue, depth, open, low)
    ensures forall u :: u in open ==> u in depth && low <= depth[u] <= low + 1
  {
  }

  /** One node's edges: every unseen end is queued one level further out. */
  method Expand(
      ghost edges: seq<Edge>, ghost src: string, ghost bound: nat, cur: Step, out: seq<Edge>,
      ghost depth0: map<string, nat>, ghost done: set<string>, queue0: seq<Step>,
      parentNode0: map<string, string>, parentEdge0: map<string, Edge>, seen0: set<string>)
    returns (queue: seq<Step>, parentNode: map<string, string>, parentEdge: map<string, Edge>, seen: set<string>,
             ghost depth: map<string, nat>)
    requires LeadsOut(edges, cur.id, out) && cur.depth < bound && seen0 == depth0.Keys
    requires Expanding(edges, src, bound, cur, done, depth0, queue0, parentNode0, parentEdge0)
    ensures Expanding(edges, src, bound, cur, done, depth, queue, parentNode, parentEdge)
    ensures seen == depth.Keys && depth0.Keys <= depth.Keys
    ensures forall v :: v in Neighbors(edges, cur.id) ==> v in depth
  {
    queue, parentNode, parentEdge, seen := queue0, parentNode0, parentEdge0, seen0;
    depth := depth0;
    hide Neighbors, Expanding;
    for k := 0 to |out|
      invariant Expanding(edges, src, bound, cur, done, depth, queue, parentNode, parentEdge)
      invariant seen == depth.Keys && depth0.Keys <= depth.Keys
      invariant forall j :: 0 <= j < k ==> out[j].dst in depth
    {
      var edge := out[k];
      if edge.dst in seen {
        continue;
      }
      Discover(edges, src, bound, cur, done, depth, queue, parentNode, parentEdge, edge);
      seen := seen + {edge.dst};
      parentNode := parentNode[edge.dst := cur.id];
      parentEdge := parentEdge[edge.dst := edge];
      queue := queue + [Step(edge.dst, cur.depth + 1)];
      depth := depth[edge.dst := cur.depth + 1];
    }
  }

  /** The state of the search between two nodes. */
  ghost predicate Searching(
      edges: seq<Edge>, src: string, bound: nat, low: nat, done: set<string>, depth: map<string, nat>,
      queue: seq<Step>, parentNode: map<string, string>, parentEdge: map<string, Edge>)
  {
    && Exact(edges, src, depth) && Finished(edges, bound, depth, done)
    && Linked(edges, src, depth, parentNode, parentEdge)
    && Lined(queue, depth, depth.Keys - done, low)
    && (forall u :: u in done ==> u in depth && depth[u] <= low)
    && forall u :: u in depth ==> depth[u] <= bound
  }

  lemma LinedPop(queue: seq<Step>, depth: map<string, nat>, open: set<string>, low: nat)
    requires Lined(queue, depth, open, low) && queue != []
    ensures var cur := queue[0];
            && cur.id in open && cur.id in depth && depth[cur.id] == cur.depth && low <= cur.depth
            && Lined(queue[1..], depth, open - {cur.id}, cur.depth)
  {
    var cur := queue[0];
    forall u | u in open - {cur.id} ensures exists i :: 0 <= i < |queue[1..]| && queue[1..][i].id == u {
      var i :| 0 <= i < |queue| && queue[i].id == u;
      assert queue[1..][i - 1].id == u;
    }
  }

  lemma TakeNext(
      edges: seq<Edge>, src: string, bound: nat, low: nat, done: set<string>, depth: map<string, nat>,
      queue: seq<Step>, parentNode: map<string, string>, parentEdge: map<string, Edge>)
    requires Searching(edges, src, bound, low, done, depth, queue, parentNode, parentEdge) && queue != []
    ensures Expanding(edges, src, bound, queue[0], done, depth, queue[1..], parentNode, parentEdge)
    ensures queue[0].depth <= bound && forall u :: u in depth ==> depth[u] <= bound
  {
    hide Neighbors, Exact, Finished, Linked, Lined;
    var open := depth.Keys - done;
    LinedPop(queue, depth, open, low);
    assert depth.Keys - done - {queue[0].id} == open - {queue[0].id};
  }

  /** A node is finished once its neighbours are found, or at the bound without looking. */
  lemma Close(
      edges: seq<Edge>, src: string, bound: nat, cur: Step, done: set<string>, depth: map<string, nat>,
      queue: seq<Step>, parentNode: map<string, string>, parentEdge: map<string, Edge>)
    requires Expanding(edges, src, bound, cur, done, depth, queue, parentNode, parentEdge) && cur.depth <= bound
    requires cur.depth < bound ==> forall v :: v in Neighbors(edges, cur.id) ==> v in depth
    requires cur.depth == bound ==> forall u :: u in depth ==> depth[u] <= bound
    ensures Searching(edges, src, bound, cur.depth, done + {cur.id}, depth, queue, parentNode, parentEdge)
  {
    hide Neighbors, Exact, Linked, Lined;
    LinedIsNoNearer(queue, depth, depth.Keys - done - {cur.id}, cur.depth);
    assert depth.Keys - done - {cur.id} == depth.Keys - (done + {cur.id});
    assert forall u :: u in depth ==> depth[u] <= cur.depth + 1;
  }

  lemma Begin(edges: seq<Edge>, src: string, bound: nat)
    ensures Searching(edges, src, bound, 0, {}, map[src := 0], [Step(src, 0)], map[], map[])
  {
    hide Neighbors;
    var queue := [Step(src, 0)];
    assert queue[0].id == src;
    assert Lined(queue, map[src := 0], {src}, 0);
    assert map[src := 0].Keys - {} == {src};
  }

  /** Breadth-first search with parent pointers, up to `bound` steps from `src`. */
  method Search(edges: seq<Edge>, src: string, dst: string, bound: nat)
    returns (seen: set<string>, parentNode: map<string, string>, parentEdge: map<string, Edge>,
             ghost depth: map<string, nat>)
    ensures Exact(edges, src, depth) && Linked(edges, src, depth, parentNode, parentEdge) && seen == depth.Keys
    ensures dst in seen <==> dst in Ball(edges, src, bound)
    ensures dst in seen ==> depth[dst] <= bound
  {
    var adj := BuildAdjacency(edges);
    forall u ensures LeadsOut(edges, u, AdjacentTo(adj, u)) {
      AdjacentLeadsOut(edges, u);
    }
    var queue := [Step(src, 0)];
    seen := {src};
    parentNode, parentEdge, depth := map[], map[], map[src := 0];
    ghost var done: set<string>, low: nat := {}, 0;
    Begin(edges, src, bound);
    hide Neighbors, Ball, Exact, Finished, Linked, Lined, LeadsOut, Adjacent, Searching, Expanding;
    while queue != []
      invariant Searching(edges, src, bound, low, done, depth, queue, parentNode, parentEdge)
      invariant seen == depth.Keys && dst !in done && done <= Ball(edges, src, bound)
      decreases Ball(edges, src, bound) - done
    {
      var cur := queue[0];
      TakeNext(edges, src, bound, low, done, depth, queue, parentNode, parentEdge);
      queue := queue[1..];
      CurrentNode(edges, src, bound, cur, done, depth, queue, parentNode, parentEdge);
      if cur.id == dst {
        return;
      }
      if cur.depth >= bound {
        Close(edges, src, bound, cur, done, depth, queue, parentNode, parentEdge);
        done, low := done + {cur.id}, cur.depth;
        continue;
      }
      queue, parentNode, parentEdge, seen, depth := Expand(
        edges, src, bound, cur, AdjacentTo(adj, cur.id), depth, done, queue, parentNode, parentEdge, seen);
      Close(edges, src, bound, cur, done, depth, queue, parentNode, parentEdge);
      done, low := done + {cur.id}, cur.depth;
    }
    Exhausted(edges, src, dst, bound, low, done, depth, parentNode, parentEdge);
  }

  lemma CurrentNode(
      edges: seq<Edge>, src: string, bound: nat, cur: Step, done: set<string>, depth: map<string, nat>,
      queue: seq<Step>, parentNode: map<string, string>, parentEdge: map<string, Edge>)
    requires Expanding(edges, src, bound, cur, done, depth, queue, parentNode, parentEdge) && cur.depth <= bound
    ensures cur.id in depth && cur.id !in done && depth[cur.id] == cur.depth
    ensures cur.id in Ball(edges, src, bound)
    ensures Exact(edges, src, depth) && Linked(edges, src, depth, parentNode, parentEdge)
  {
    hide Neighbors, Ball;
    BallGrows(edges, src, cur.depth, bound);
  }

  lemma NothingLined(depth: map<string, nat>, open: set<string>, low: nat)
    requires Lined([], depth, open, low)
    ensures open == {}
  {
  }

  /** With nothing left in the queue, the whole ball has been found. */
  lemma Exhausted(
      edges: seq<Edge>, src: string, dst: string, bound: nat, low: nat, done: set<string>, depth: map<string, nat>,
      parentNode: map<string, string>, parentEdge: map<string, Edge>)
    requires Searching(edges, src, bound, low, done, depth, [], parentNode, parentEdge) && dst !in done
    ensures Exact(edges, src, depth) && Linked(edges, src, depth, parentNode, parentEdge)
    ensures dst !in depth && dst !in Ball(edges, src, bound)
  {
    hide Neighbors, Ball;
    NothingLined(depth, depth.Keys - done, low);
    assert forall v :: v in depth ==> v !in depth.Keys - done;
    if dst in Ball(edges, src, bound) {
      LevelFound(edges, src, bound, depth, done, bound, bound, dst);
      assert false;
    }
  }

  // ---------- the path query ----------

  /** The stored edge of the same shape with the greatest row id, if there is one. */
  function LoadEdgeByShape(rows: seq<Row>, edge: Edge): (found: Option<Row>)
    ensures found.Some? ==>
              && found.value in rows
              && var e := found.value.edge;
                 e.src == edge.src && e.dst == edge.dst && e.kind == edge.kind && e.validFrom == edge.validFrom
    ensures forall r :: r in rows && (r.edge.src, r.edge.dst, r.edge.kind, r.edge.validFrom) ==
                                     (edge.src, edge.dst, edge.kind, edge.validFrom) ==>
              found.Some? && r.id <= found.value.id
  {
    if rows == [] then None
    else
      var rest := LoadEdgeByShape(rows[1..], edge);
      if SameShape(rows[0].edge, edge) && (rest.None? || rows[0].id > rest.value.id) then Some(rows[0]) else rest
  }

  predicate SameShape(a: Edge, b: Edge) {
    a.src == b.src && a.dst == b.dst && a.kind == b.kind && a.validFrom == b.validFrom
  }

  function Backwards(s: seq<Edge>): seq<Edge> {
    if s == [] then [] else [s[|s| - 1]] + Backwards(s[..|s| - 1])
  }

  lemma {:induction false} BackwardsIsReversed(s: seq<Edge>)
    ensures |Backwards(s)| == |s| && forall k :: 0 <= k < |s| ==> Backwards(s)[k] == s[|s| - 1 - k]
  {
    if s != [] {
      BackwardsIsReversed(s[..|s| - 1]);
    }
  }

  /** Reverses a path in place. */
  method ReverseEdges(edges: array<Edge>)
    modifies edges
    ensures edges[..] == Backwards(old(edges[..]))
  {
    var i, j := 0, edges.Length - 1;
    while i < j
      invariant 0 <= i <= edges.Length && i + j == edges.Length - 1
      invariant forall k :: (0 <= k < i || j < k < edges.Length) ==> edges[k] == old(edges[edges.Length - 1 - k])
      invariant forall k :: i <= k <= j ==> edges[k] == old(edges[k])
    {
      edges[i], edges[j] := edges[j], edges[i];
      i, j := i + 1, j - 1;
    }
    hide Backwards;
    BackwardsIsReversed(old(edges[..]));
  }

  /** Follows the parents from `dst` to `src`, fetching the stored edge for every hop. */
  method WalkBack(
      rows: seq<Row>, ghost all: seq<Edge>, src: string, dst: string, ghost depth: map<string, nat>,
      parentNode: map<string, string>, parentEdge: map<string, Edge>)
    returns (path: seq<Edge>)
    requires dst in depth && src in depth && depth[src] == 0
    requires Linked(all, src, depth, parentNode, parentEdge)
    requires forall e :: Stored(rows, e) ==> e in all
    ensures Trail(all, Backwards(path), src, dst) && |path| == depth[dst]
  {
    path := [];
    var cur := dst;
    while cur != src
      invariant cur in depth && |path| + depth[cur] == depth[dst]
      invariant Trail(all, Backwards(path), cur, dst)
      decreases depth[cur]
    {
      var edge := parentEdge[cur];
      var stored := LoadEdgeByShape(rows, edge);
      var next := if stored.Some? then stored.value.edge else edge;
      assert stored.Some? ==> Stored(rows, next);
      assert next.src == parentNode[cur] && next.dst == cur && Usable(all, next);
      Prepend(all, path, next, dst);
      path := path + [next];
      cur := parentNode[cur];
    }
  }

  lemma Prepend(all: seq<Edge>, path: seq<Edge>, next: Edge, dst: string)
    requires Trail(all, Backwards(path), next.dst, dst) && Usable(all, next)
    ensures Trail(all, Backwards(path + [next]), next.src, dst)
  {
    assert (path + [next])[..|path|] == path;
    assert Backwards(path + [next]) == [next] + Backwards(path);
    assert ([next] + Backwards(path))[1..] == Backwards(path);
  }

  /** For the entities around `src`, searching the neighbourhood is searching the whole graph. */
  lemma ConfinedSearch(db: Db, src: string, maxDepth: int, n: nat)
    requires ClosedUnderEdges(db) && src in db.entities && n <= ClampDepth(maxDepth)
    ensures var all := Select(db.rows, [], None);
            var edges := NeighborhoodEdges(db, src, maxDepth, []);
            && src in NeighborhoodIds(db, src, maxDepth, [])
            && Ball(edges, src, n) == Ball(all, src, n)
            && forall e :: e in edges ==> e in all
  {
    var bound := ClampDepth(maxDepth);
    var all := Select(db.rows, [], None);
    WalkIsBall(all, src, bound);
    BallOfEntities(db, all, src, bound);
    BallGrows(all, src, 0, bound);
    hide Neighbors, Ball;
    assert NeighborhoodIds(db, src, maxDepth, []) == Ball(all, src, bound);
    BallWithinBall(all, NeighborhoodEdges(db, src, maxDepth, []), src, n, bound);
  }

  lemma NoEntityNoNeighborhood(db: Db, src: string, maxDepth: int)
    requires ClosedUnderEdges(db) && src !in db.entities
    ensures NeighborhoodIds(db, src, maxDepth, []) == {}
  {
    var all := Select(db.rows, [], None);
    WalkIsBall(all, src, ClampDepth(maxDepth));
    BallOfEntities(db, all, src, ClampDepth(maxDepth));
  }

  lemma NoShorterTrail(all: seq<Edge>, src: string, dst: string, n: nat)
    requires n > 0 ==> dst !in Ball(all, src, n - 1)
    ensures forall t :: Trail(all, t, src, dst) ==> n <= |t|
  {
    forall t | Trail(all, t, src, dst) ensures n <= |t| {
      TrailInBall(all, t, src, dst);
      if |t| < n {
        BallGrows(all, src, |t|, n - 1);
      }
    }
  }

  /** MAIN RESULT.  A path is reported exactly if `src` is an entity and some trail leads to
      `dst` of at most `maxDepth` edges, or one edge for less than 1 and three for more than 3.
      The path reported is such a trail, of stored edges or mirrors of stored edges, and no trail
      of any kind is shorter. */
  method Path(db: Db, src: string, dst: string, maxDepth: int) returns (path: seq<Edge>, found: bool)
    requires ClosedUnderEdges(db)
    ensures var all := Select(db.rows, [], None);
            && (1 <= maxDepth <= 3 ==> (found <==> src in db.entities && Within(all, src, dst, maxDepth)))
            && (maxDepth <= 0 ==> (found <==> src in db.entities && Within(all, src, dst, 1)))
            && (maxDepth >= 3 ==> (found <==> src in db.entities && Within(all, src, dst, 3)))
            && (found ==> Trail(all, path, src, dst) && forall t :: Trail(all, t, src, dst) ==> |path| <= |t|)
            && (!found ==> path == [])
  {
    path := [];
    var bound := ClampDepth(maxDepth);
    var ids := NeighborhoodIds(db, src, maxDepth, []);
    var edges := NeighborhoodEdges(db, src, maxDepth, []);
    ghost var all := Select(db.rows, [], None);
    hide Neighbors, Ball, Trail, Select, NeighborhoodIds, NeighborhoodEdges, Exact, Linked, Within;
    if ids == {} {
      if src in db.entities {
        ConfinedSearch(db, src, maxDepth, bound);
        assert false;
      }
      return path, false;
    }
    if src !in db.entities {
      NoEntityNoNeighborhood(db, src, maxDepth);
      assert false;
    }
    BallIsWithin(all, src, dst, bound);
    ConfinedSearch(db, src, maxDepth, bound);
    var seen, parentNode, parentEdge, depth := Search(edges, src, dst, bound);
    if dst !in seen {
      return path, false;
    }
    SearchedAll(edges, all, src, dst, depth, parentNode, parentEdge);
    path := WalkBack(db.rows, all, src, dst, depth, parentNode, parentEdge);
    if depth[dst] > 0 {
      ConfinedSearch(db, src, maxDepth, depth[dst] - 1);
    }
    NoShorterTrail(all, src, dst, depth[dst]);
    var reversed := new Edge[|path|](i requires 0 <= i < |path| => path[i]);
    assert reversed[..] == path;
    ReverseEdges(reversed);
    path := reversed[..];
    found := true;
  }

  /** What the search found among the confined edges, restated over all edges. */
  lemma SearchedAll(
      inner: seq<Edge>, all: seq<Edge>, src: string, dst: string, depth: map<string, nat>,
      parentNode: map<string, string>, parentEdge: map<string, Edge>)
    requires Exact(inner, src, depth) && Linked(inner, src, depth, parentNode, parentEdge) && dst in depth
    requires forall e :: e in inner ==> e in all
    ensures Linked(all, src, depth, parentNode, parentEdge) && src in depth && depth[src] == 0
    ensures depth[dst] > 0 ==> dst !in Ball(inner, src, depth[dst] - 1)
  {
    hide Neighbors, Ball;
  }
}
