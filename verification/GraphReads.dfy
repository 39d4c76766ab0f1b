/** Reading what was written: what the neighbourhood and path queries answer after a run of graph
    writes and snapshot updates, in terms of the writes that went through. */
module GraphReads {
  import opened Records
  import opened GraphReader
  import H = GraphHistory
  import O = GraphOutcome

  /** The tables of a graph, with the edge rows in any order. */
  ghost predicate Shows(db: Db, g: G.Graph) {
    && db.entities == g.entities.Keys
    && forall r :: r in db.rows <==> r.id in g.edges && g.edges[r.id] == r.edge
  }

  lemma {:induction false} RowsOf(edges: map<int, Edge>) returns (rows: seq<Row>)
    ensures forall r :: r in rows <==> r.id in edges && edges[r.id] == r.edge
    decreases |edges|
  {
    if i :| i in edges {
      var rest := RowsOf(edges - {i});
      rows := [Row(i, edges[i])] + rest;
    } else {
      rows := [];
    }
  }

  /** Every graph has such tables, and those of a reached graph are what the path query asks for:
      both ends of every edge are entities. */
  lemma ReachedIsReadable(states: seq<H.State>, events: seq<H.Event>, committed: seq<bool>, n: nat)
    requires H.IsRun(states, events, committed) && n < |states|
    ensures exists db :: Shows(db, states[n].graph)
    ensures forall db :: Shows(db, states[n].graph) ==> ClosedUnderEdges(db)
  {
    var g := states[n].graph;
    H.AlwaysSound(states, events, committed, n);
    var rows := RowsOf(g.edges);
    assert Shows(Db(g.entities.Keys, rows), g);
    forall db | Shows(db, g) ensures ClosedUnderEdges(db) {
      forall r | r in db.rows ensures r.edge.src in db.entities && r.edge.dst in db.entities {
        assert H.SoundEdge(g, states[n].messages, r.id);
      }
    }
  }

  // ---------- the writes that went through ----------

  ghost function ShapesAsked(events: seq<H.Event>, committed: seq<bool>, n: nat, typeFilter: seq<string>): set<O.Shape>
    requires n <= |events| && n <= |committed|
  {
    set k, t | 0 <= k < n && committed[k] && events[k].Write?
      && t in O.JoinsOf(events[k]) && Passes(typeFilter, t.kind) :: t
  }

  ghost function EntitiesAsked(events: seq<H.Event>, committed: seq<bool>, n: nat): set<string>
    requires n <= |events| && n <= |committed|
  {
    set k, id | 0 <= k < n && committed[k] && events[k].Write? && id in O.TouchedBy(events[k]) :: id
  }

  function Linked(shapes: set<O.Shape>, u: string): set<string> {
    set t | t in shapes && (t.src == u || t.dst == u) :: if t.src == u then t.dst else t.src
  }

  /** What at most `n` of the shapes, in either direction, lead to. */
  function Reach(shapes: set<O.Shape>, u: string, n: nat): set<string> {
    if n == 0 then {u}
    else Reach(shapes, u, n - 1) + set w, v | w in Reach(shapes, u, n - 1) && v in Linked(shapes, w) :: v
  }

  /** Edges and shapes that match each other. */
  ghost predicate Cover(edges: seq<Edge>, shapes: set<O.Shape>) {
    && (forall e :: e in edges ==> O.ShapeOf(e) in shapes)
    && (forall t :: t in shapes ==> exists e :: e in edges && O.ShapeOf(e) == t)
  }

  lemma CoverLinks(edges: seq<Edge>, shapes: set<O.Shape>, u: string)
    requires Cover(edges, shapes)
    ensures Neighbors(edges, u) == Linked(shapes, u)
  {
    forall v | v in Linked(shapes, u) ensures v in Neighbors(edges, u) {
      var t :| t in shapes && (t.src == u || t.dst == u) && v == if t.src == u then t.dst else t.src;
      var e :| e in edges && O.ShapeOf(e) == t;
      assert OtherEnd(e, u) == v;
    }
    forall v | v in Neighbors(edges, u) ensures v in Linked(shapes, u) {
      var e :| e in edges && (e.src == u || e.dst == u) && OtherEnd(e, u) == v;
      assert O.ShapeOf(e) in shapes;
    }
  }

  lemma {:induction false} CoverReaches(edges: seq<Edge>, shapes: set<O.Shape>, u: string, n: nat)
    requires Cover(edges, shapes)
    ensures Ball(edges, u, n) == Reach(shapes, u, n)
  {
    hide Cover, Neighbors, Linked;
    if n > 0 {
      CoverReaches(edges, shapes, u, n - 1);
      forall w ensures Neighbors(edges, w) == Linked(shapes, w) {
        CoverLinks(edges, shapes, w);
      }
    }
  }

  /** The tables after a run hold exactly what the writes that went through asked for. */
  lemma RunIsCovered(
      states: seq<H.State>, events: seq<H.Event>, committed: seq<bool>, n: nat, db: Db, typeFilter: seq<string>)
    requires H.IsRun(states, events, committed) && n < |states| && Shows(db, states[n].graph)
    ensures n <= |events| && n <= |committed|
    ensures db.entities == EntitiesAsked(events, committed, n)
    ensures Cover(Select(db.rows, typeFilter, None), ShapesAsked(events, committed, n, typeFilter))
  {
    hide *;
    H.RunShape(states, events, committed);
    O.GraphAddsUp(states, events, committed, n);
    EntitiesCovered(states[n].graph, events, committed, n, db);
    ShapesCovered(states[n].graph, events, committed, n, db, typeFilter);
  }

  lemma EntitiesCovered(g: G.Graph, events: seq<H.Event>, committed: seq<bool>, n: nat, db: Db)
    requires n <= |events| == |committed| && Shows(db, g) && O.EntitiesAddUp(g, events, committed, n)
    ensures db.entities == EntitiesAsked(events, committed, n)
  {
    hide O.TouchedBy;
    forall id ensures id in g.entities <==> id in EntitiesAsked(events, committed, n) {
      if id in g.entities {
        var k: nat :| O.Saw(events, committed, n, k, id);
      }
      if id in EntitiesAsked(events, committed, n) {
        var k :| 0 <= k < n && committed[k] && events[k].Write? && id in O.TouchedBy(events[k]);
        assert O.Saw(events, committed, n, k, id);
      }
    }
  }

  lemma ShapesCovered(
      g: G.Graph, events: seq<H.Event>, committed: seq<bool>, n: nat, db: Db, typeFilter: seq<string>)
    requires n <= |events| == |committed| && Shows(db, g) && O.EdgesAddUp(g, events, committed, n)
    ensures Cover(Select(db.rows, typeFilter, None), ShapesAsked(events, committed, n, typeFilter))
  {
    hide O.JoinsOf, Passes;
    var edges, shapes := Select(db.rows, typeFilter, None), ShapesAsked(events, committed, n, typeFilter);
    hide Select;
    forall e | e in edges ensures O.ShapeOf(e) in shapes {
      var r :| r in db.rows && r.edge == e;
      assert O.ShapeOf(g.edges[r.id]) in O.Shapes(g);
      var k: nat :| O.Wrote(events, committed, n, k) && O.ShapeOf(e) in O.JoinsOf(events[k]);
    }
    forall t | t in shapes ensures exists e :: e in edges && O.ShapeOf(e) == t {
      var k :| 0 <= k < n && committed[k] && events[k].Write?
               && t in O.JoinsOf(events[k]) && Passes(typeFilter, t.kind);
      assert O.Wrote(events, committed, n, k) && t in O.Shapes(g);
      var i :| i in g.edges && O.ShapeOf(g.edges[i]) == t;
      assert Row(i, g.edges[i]) in db.rows && Stored(db.rows, g.edges[i]);
    }
  }

  /** MAIN RESULT.  In every reached state, a neighbourhood is exactly the entities of committed
      writes that at most `depth` of their edges lead to (one if it is less than 1, three if it is
      more than 3), whatever was closed, repeated or stripped of its evidence in between; the edges
      between them are those of the writes. */
  lemma NeighborhoodOfWrites(
      states: seq<H.State>, events: seq<H.Event>, committed: seq<bool>, n: nat, db: Db,
      start: string, depth: int, typeFilter: seq<string>)
    requires H.IsRun(states, events, committed) && n < |states| && Shows(db, states[n].graph)
    ensures n <= |events| && n <= |committed|
    ensures var shapes := ShapesAsked(events, committed, n, typeFilter);
            var ids := NeighborhoodIds(db, start, depth, typeFilter);
            && (1 <= depth <= 3 ==> ids == Reach(shapes, start, depth) * EntitiesAsked(events, committed, n))
            && (depth <= 0 ==> ids == Reach(shapes, start, 1) * EntitiesAsked(events, committed, n))
            && (depth >= 3 ==> ids == Reach(shapes, start, 3) * EntitiesAsked(events, committed, n))
            && forall t :: (exists e :: e in NeighborhoodEdges(db, start, depth, typeFilter) && O.ShapeOf(e) == t) <==>
                 t in shapes && t.src in ids && t.dst in ids
  {
    hide H.IsRun, Shows, Reach, Select, Ball, WalkIds, ShapesAsked, EntitiesAsked, Passes;
    RunIsCovered(states, events, committed, n, db, typeFilter);
    var filtered, shapes := Select(db.rows, typeFilter, None), ShapesAsked(events, committed, n, typeFilter);
    WalkIsBall(filtered, start, ClampDepth(depth));
    CoverReaches(filtered, shapes, start, ClampDepth(depth));
    NeighborhoodIsBall(db, start, depth, typeFilter);
    hide NeighborhoodEdges, NeighborhoodIds;
    var ids := NeighborhoodIds(db, start, depth, typeFilter);
    forall t ensures (exists e :: e in NeighborhoodEdges(db, start, depth, typeFilter) && O.ShapeOf(e) == t) <==>
                 t in shapes && t.src in ids && t.dst in ids {
      if t in shapes && t.src in ids && t.dst in ids {
        var e :| e in filtered && O.ShapeOf(e) == t;
        assert e in NeighborhoodEdges(db, start, depth, typeFilter);
      }
    }
  }

  /** MAIN RESULT.  In every reached state, the path query may be asked, finds a path exactly if
      at most `maxDepth` edges of committed writes lead there (one if it is less than 1, three if it is
      more than 3), and finds a shortest one. */
  method PathOfWrites(
      ghost states: seq<H.State>, ghost events: seq<H.Event>, ghost committed: seq<bool>, ghost n: nat,
      db: Db, src: string, dst: string, maxDepth: int)
    returns (path: seq<Edge>, found: bool)
    requires H.IsRun(states, events, committed) && n < |states| && Shows(db, states[n].graph)
    ensures n <= |events| && n <= |committed|
    ensures var shapes := ShapesAsked(events, committed, n, []);
            var known := src in EntitiesAsked(events, committed, n);
            && (1 <= maxDepth <= 3 ==> (found <==> known && dst in Reach(shapes, src, maxDepth)))
            && (maxDepth <= 0 ==> (found <==> known && dst in Reach(shapes, src, 1)))
            && (maxDepth >= 3 ==> (found <==> known && dst in Reach(shapes, src, 3)))
            && (found ==> Trail(Select(db.rows, [], None), path, src, dst) && dst in Reach(shapes, src, |path|)
                          && forall m: nat :: m < |path| ==> dst !in Reach(shapes, src, m))
  {
    hide H.IsRun, Shows, Select, Trail, Reach, Ball, ShapesAsked, EntitiesAsked, Passes;
    ReachedIsReadable(states, events, committed, n);
    path, found := Path(db, src, dst, maxDepth);
    ghost var all := Select(db.rows, [], None);
    RunIsCovered(states, events, committed, n, db, []);
    forall m: nat ensures dst in Reach(ShapesAsked(events, committed, n, []), src, m) <==> Within(all, src, dst, m) {
      CoverReaches(all, ShapesAsked(events, committed, n, []), src, m);
      BallIsWithin(all, src, dst, m);
    }
  }
}
