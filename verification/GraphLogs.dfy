/** The history of the graph as a log of attempted transactions, and what undisturbed attempts come to:
    which graph writes go through, and when the store stops, from the writes alone. */
module GraphLogs {
  import opened GraphCommits
  import opened GraphHistory
  import opened GraphOutcome
  import opened GraphRows
  import opened GraphWedge
  import opened GraphWriter
  import opened Records

  // ---------- attempts ----------

  datatype GraphLog = GraphLog(states: seq<State>, events: seq<Event>, committed: seq<bool>)

  const NO_LOG := GraphLog([START], [], [])

  function Now(log: GraphLog): State {
    if log.states == [] then START else log.states[|log.states| - 1]
  }

  function More(log: GraphLog, e: Event, committed: bool, s: State): GraphLog {
    GraphLog(log.states + [s], log.events + [e], log.committed + [committed])
  }

  ghost predicate Reached(log: GraphLog) {
    IsRun(log.states, log.events, log.committed)
  }

  /** The state after a transaction that goes through. */
  ghost function After(s: State, e: Event): State {
    match e
    case Replace(messages) => State(Detached(s.graph), messages)
    case Write(branch, msg, payload) =>
      var g := PerformAll(s.graph, s.messages, branch, msg, Plan(branch, msg, payload));
      if g.Some? then s.(graph := g.value) else s
  }

  lemma CommitsAfter(s: State, e: Event)
    ensures CanCommit(s, e) <==> Commits(s, e, After(s, e))
    ensures forall s' :: Commits(s, e, s') ==> s' == After(s, e)
  {
    hide PerformAll, Plan, Twins, Detached;
  }

  /** The transaction is tried; with the disk in order it goes through if it can. */
  ghost function Try(log: GraphLog, e: Event, diskOk: bool): GraphLog {
    if diskOk && CanCommit(Now(log), e) then More(log, e, true, After(Now(log), e)) else More(log, e, false, Now(log))
  }

  lemma MoreIsReached(log: GraphLog, e: Event, committed: bool, s: State)
    requires Reached(log)
    requires if committed then Commits(Now(log), e, s) else s == Now(log)
    ensures Reached(More(log, e, committed, s)) && Now(More(log, e, committed, s)) == s
  {
    hide Commits;
    var more := More(log, e, committed, s);
    assert forall i :: 0 <= i < |log.states| ==> more.states[i] == log.states[i];
    assert more.states[|log.events|] == Now(log) && more.states[|log.events| + 1] == s;
  }

  lemma TryIsReached(log: GraphLog, e: Event, diskOk: bool)
    requires Reached(log)
    ensures Reached(Try(log, e, diskOk))
  {
    hide *;
    CommitsAfter(Now(log), e);
    TriedMore(log, e, diskOk);
    if diskOk && CanCommit(Now(log), e) {
      MoreIsReached(log, e, true, After(Now(log), e));
    } else {
      MoreIsReached(log, e, false, Now(log));
    }
  }

  lemma TriedMore(log: GraphLog, e: Event, diskOk: bool)
    ensures Try(log, e, diskOk) ==
            if diskOk && CanCommit(Now(log), e) then More(log, e, true, After(Now(log), e))
            else More(log, e, false, Now(log))
  {
  }

  lemma ReachedShape(log: GraphLog)
    requires Reached(log)
    ensures |log.states| == |log.events| + 1 && |log.committed| == |log.events|
    ensures Now(log) == log.states[|log.events|]
    ensures Sound(Now(log).graph, Now(log).messages)
  {
    RunShape(log.states, log.events, log.committed);
    AlwaysSound(log.states, log.events, log.committed, |log.events|);
    hide Sound, IsRun;
  }

  // ---------- the writes that went through ----------

  /** The first closing of edges of this shape at or after write `k`. */
  function ClosedBy(ws: seq<Event>, t: Shape, k: nat): Option<string> {
    if |ws| <= k then None
    else
      var last := ws[|ws| - 1];
      var before := ClosedBy(ws[..|ws| - 1], t, k);
      if before.Some? then before else if Closes(last, t) then Some(last.msg.timestamp) else None
  }

  predicate Asks(ws: seq<Event>, k: nat, t: Shape) {
    k < |ws| && ws[k].Write? && t in JoinsOf(ws[k])
  }

  /** Two writes ask for one edge starting at the same instant, and both edges are open or were closed
      at the same instant. */
  ghost predicate Clash(ws: seq<Event>) {
    exists a: nat, c: nat, t :: a < c && Asks(ws, a, t) && Asks(ws, c, t) && ClosedBy(ws, t, a) == ClosedBy(ws, t, c)
  }

  /** The write closes an edge which then agrees with one closed at the same instant before. */
  ghost predicate Jam(ws: seq<Event>, e: Event)
    requires e.Write?
  {
    exists a: nat, c: nat, t ::
      && Asks(ws, a, t) && Asks(ws, c, t) && Closes(e, t)
      && ClosedBy(ws, t, a) == Some(e.msg.timestamp) && ClosedBy(ws, t, c) == None
  }

  /** Where the writes stand in the log, an update between any two of them. */
  ghost predicate Places(log: GraphLog, ws: seq<Event>, at: seq<nat>) {
    && |at| == |ws| && |log.committed| == |log.events|
    && (forall p :: 0 <= p < |at| ==> PlacedAt(log, ws, at, p))
    && (forall p, q :: 0 <= p < q < |at| ==> at[p] < at[q] && Updated(log.events, log.committed, at[p] + 1, at[q]))
    && (forall k: nat :: Wrote(log.events, log.committed, |log.events|, k) ==> k in at)
  }

  ghost predicate PlacedAt(log: GraphLog, ws: seq<Event>, at: seq<nat>, p: nat)
    requires p < |at| == |ws| && |log.committed| == |log.events|
  {
    && Wrote(log.events, log.committed, |log.events|, at[p]) && log.events[at[p]] == ws[p]
    && forall t :: ClosedBy(ws, t, p) == ClosedSince(log.events, log.committed, t, at[p], |log.events|)
  }

  ghost predicate Tracked(log: GraphLog, ws: seq<Event>) {
    Reached(log) && exists at :: Places(log, ws, at)
  }

  lemma ClosedByMore(ws: seq<Event>, e: Event, t: Shape, k: nat)
    ensures ClosedBy(ws + [e], t, k) ==
            if k > |ws| then None
            else
              var before := ClosedBy(ws, t, k);
              if before.Some? then before else if Closes(e, t) then Some(e.msg.timestamp) else None
  {
    hide Closes;
    assert (ws + [e])[..|ws|] == ws;
  }

  lemma ClosedSinceMore(
      events: seq<Event>, committed: seq<bool>, e: Event, goes: bool, t: Shape, k: nat)
    requires |committed| == |events|
    ensures var n := |events|;
            var before := ClosedSince(events, committed, t, k, n);
            ClosedSince(events + [e], committed + [goes], t, k, n + 1) ==
            if n + 1 <= k then None
            else if before.Some? then before else if goes && Closes(e, t) then Some(e.msg.timestamp) else None
  {
    hide Closes;
    SameFront(events, committed, e, goes, t, k, |events|);
  }

  lemma {:induction false} SameFront(
      events: seq<Event>, committed: seq<bool>, e: Event, goes: bool, t: Shape, k: nat, n: nat)
    requires |committed| == |events| && n <= |events|
    ensures ClosedSince(events + [e], committed + [goes], t, k, n) == ClosedSince(events, committed, t, k, n)
  {
    hide Closes;
    if n > k {
      SameFront(events, committed, e, goes, t, k, n - 1);
    }
  }

  lemma UpdatedFront(events: seq<Event>, committed: seq<bool>, e: Event, goes: bool, m: nat, n: nat)
    requires |committed| == |events| && n <= |events|
    ensures Updated(events + [e], committed + [goes], m, n) <==> Updated(events, committed, m, n)
  {
    if Updated(events, committed, m, n) {
      var k :| m <= k < n && k < |events| && k < |committed| && committed[k] && events[k].Replace?;
      assert (events + [e])[k].Replace? && (committed + [goes])[k];
    }
  }

  lemma WroteFront(events: seq<Event>, committed: seq<bool>, e: Event, goes: bool, k: nat)
    requires |committed| == |events|
    ensures Wrote(events + [e], committed + [goes], |events| + 1, k) <==>
              Wrote(events, committed, |events|, k) || (k == |events| && goes && e.Write?)
  {
  }

  /** A step that is no committed write leaves the writes where they are. */
  lemma QuietPlaces(log: GraphLog, ws: seq<Event>, at: seq<nat>, e: Event, goes: bool, s: State)
    requires Places(log, ws, at) && !(goes && e.Write?)
    ensures Places(More(log, e, goes, s), ws, at)
  {
    var more := More(log, e, goes, s);
    hide ClosedSince, ClosedBy, Updated, Wrote, Closes;
    forall p | 0 <= p < |at| ensures PlacedAt(more, ws, at, p) {
      assert PlacedAt(log, ws, at, p);
      WroteFront(log.events, log.committed, e, goes, at[p]);
      WroteInside(log.events, log.committed, at[p]);
      forall t ensures ClosedBy(ws, t, p) == ClosedSince(more.events, more.committed, t, at[p], |more.events|) {
        ClosedSinceMore(log.events, log.committed, e, goes, t, at[p]);
        assert goes ==> !Closes(e, t) by { OnlyWritesClose(e, t); }
      }
    }
    forall p, q | 0 <= p < q < |at|
      ensures at[p] < at[q] && Updated(more.events, more.committed, at[p] + 1, at[q])
    {
      assert PlacedAt(log, ws, at, q);
      WroteInside(log.events, log.committed, at[q]);
      UpdatedFront(log.events, log.committed, e, goes, at[p] + 1, at[q]);
    }
    forall k: nat | Wrote(more.events, more.committed, |more.events|, k) ensures k in at {
      WroteFront(log.events, log.committed, e, goes, k);
    }
  }

  lemma OnlyWritesClose(e: Event, t: Shape)
    ensures Closes(e, t) ==> e.Write?
  {
  }

  lemma WroteInside(events: seq<Event>, committed: seq<bool>, k: nat)
    requires Wrote(events, committed, |events|, k)
    ensures k < |events| && events[k].Write?
  {
  }

  /** A committed write just after a committed update is one more write. */
  lemma WritePlaces(log: GraphLog, ws: seq<Event>, at: seq<nat>, e: Event, s: State)
    requires Places(log, ws, at) && e.Write?
    requires log.events != [] && log.committed[|log.events| - 1] && log.events[|log.events| - 1].Replace?
    ensures Places(More(log, e, true, s), ws + [e], at + [|log.events|])
  {
    var more, at', n := More(log, e, true, s), at + [|log.events|], |log.events|;
    hide ClosedSince, ClosedBy, Updated, Wrote, Closes;
    forall p | 0 <= p < |at'| ensures PlacedAt(more, ws + [e], at', p) {
      assert p < |at| ==> PlacedAt(log, ws, at, p);
      WroteFront(log.events, log.committed, e, true, at'[p]);
      if p < |at| { WroteInside(log.events, log.committed, at[p]); }
      forall t ensures ClosedBy(ws + [e], t, p) == ClosedSince(more.events, more.committed, t, at'[p], |more.events|) {
        ClosedSinceMore(log.events, log.committed, e, true, t, at'[p]);
        ClosedByMore(ws, e, t, p);
        if p == |at| { NothingClosed(log, ws, t); }
      }
    }
    forall p, q | 0 <= p < q < |at'|
      ensures at'[p] < at'[q] && Updated(more.events, more.committed, at'[p] + 1, at'[q])
    {
      assert PlacedAt(log, ws, at, p);
      WroteInside(log.events, log.committed, at[p]);
      if q < |at| {
        assert PlacedAt(log, ws, at, q);
        WroteInside(log.events, log.committed, at[q]);
        UpdatedFront(log.events, log.committed, e, true, at[p] + 1, at[q]);
      } else {
        assert at[p] < n - 1;
        UpdatedFront(log.events, log.committed, e, true, at[p] + 1, n);
        JustUpdated(log.events, log.committed, at[p] + 1);
      }
    }
    forall k: nat | Wrote(more.events, more.committed, |more.events|, k) ensures k in at' {
      WroteFront(log.events, log.committed, e, true, k);
    }
  }

  lemma NothingClosed(log: GraphLog, ws: seq<Event>, t: Shape)
    requires |log.committed| == |log.events|
    ensures ClosedSince(log.events, log.committed, t, |log.events|, |log.events|) == None
    ensures ClosedBy(ws, t, |ws|) == None
  {
  }

  lemma JustUpdated(events: seq<Event>, committed: seq<bool>, m: nat)
    requires |committed| == |events| && m < |events|
    requires committed[|events| - 1] && events[|events| - 1].Replace?
    ensures Updated(events, committed, m, |events|)
  {
  }

  // ---------- twins ----------

  /** With an update between any two writes, the store stops exactly if two of them clash. */
  lemma TwinsAreClash(log: GraphLog, ws: seq<Event>)
    requires Tracked(log, ws)
    ensures Twins(Now(log).graph) <==> Clash(ws)
  {
    hide *;
    var at := PlacesOf(log, ws);
    ReachedShape(log);
    var n := |log.events|;
    ReachedIsRun(log);
    TwinsIff(log.states, log.events, log.committed, n);
    if Twins(Now(log).graph) {
      var a, c, t :| Collide(log.events, log.committed, n, a, c, t);
      CollisionIsClash(log, ws, at, a, c, t);
    }
    if Clash(ws) {
      var a, c, t := ClashOf(ws);
      PlacesShape(log, ws, at);
      ClashIsCollision(log, ws, at, a, c, t);
      assert Collide(log.events, log.committed, n, at[a], at[c], t);
    }
  }

  lemma ReachedIsRun(log: GraphLog)
    requires Reached(log)
    ensures IsRun(log.states, log.events, log.committed)
  {
  }

  lemma PlacesOf(log: GraphLog, ws: seq<Event>) returns (at: seq<nat>)
    requires Tracked(log, ws)
    ensures Reached(log) && Places(log, ws, at)
  {
    hide Places, Reached;
    at :| Places(log, ws, at);
  }

  lemma ClashOf(ws: seq<Event>) returns (a: nat, c: nat, t: Shape)
    requires Clash(ws)
    ensures a < c < |ws| && Asks(ws, a, t) && Asks(ws, c, t) && ClosedBy(ws, t, a) == ClosedBy(ws, t, c)
  {
    hide ClosedBy, JoinsOf;
    a, c, t :| a < c && Asks(ws, a, t) && Asks(ws, c, t) && ClosedBy(ws, t, a) == ClosedBy(ws, t, c);
  }

  lemma CollisionIsClash(log: GraphLog, ws: seq<Event>, at: seq<nat>, a: nat, c: nat, t: Shape)
    requires Places(log, ws, at) && Collide(log.events, log.committed, |log.events|, a, c, t)
    ensures Clash(ws)
  {
    hide ClosedBy, ClosedSince, Updated, Wrote, JoinsOf;
    assert a in at && c in at;
    var p :| 0 <= p < |at| && at[p] == a;
    var q :| 0 <= q < |at| && at[q] == c;
    assert PlacedAt(log, ws, at, p) && PlacedAt(log, ws, at, q);
    WroteInside(log.events, log.committed, a);
    WroteInside(log.events, log.committed, c);
    assert p < q;
    assert Asks(ws, p, t) && Asks(ws, q, t);
  }

  lemma ClashIsCollision(log: GraphLog, ws: seq<Event>, at: seq<nat>, a: nat, c: nat, t: Shape)
    requires Places(log, ws, at) && a < c && Asks(ws, a, t) && Asks(ws, c, t)
    requires ClosedBy(ws, t, a) == ClosedBy(ws, t, c)
    ensures Collide(log.events, log.committed, |log.events|, at[a], at[c], t)
  {
    hide ClosedBy, ClosedSince, Updated, Wrote, JoinsOf;
    assert PlacedAt(log, ws, at, a) && PlacedAt(log, ws, at, c);
  }

  // ---------- closings ----------

  /** Just after an update, the closing of a write jams exactly if the writes before it say so. */
  lemma ClosingIsJam(log: GraphLog, ws: seq<Event>, e: Event)
    requires Tracked(log, ws) && e.Write? && e.msg.timestamp != ""
    requires log.events != [] && |log.committed| == |log.events|
    requires log.committed[|log.events| - 1] && log.events[|log.events| - 1].Replace?
    ensures ClosingCollides(Now(log).graph, e) <==> Jam(ws, e)
  {
    hide *;
    var at := PlacesOf(log, ws);
    ReachedShape(log);
    ReachedIsRun(log);
    var g := Now(log).graph;
    NoEvidence(log, ws, at);
    if ClosingCollides(g, e) {
      var i, j := JammedRows(g, e);
      var k, t := RowStands(log.states, log.events, log.committed, |log.events|, i);
      var l, u := RowStands(log.states, log.events, log.committed, |log.events|, j);
      var p := StandsAsAsked(log, ws, at, g.edges[i], k, t);
      var q := StandsAsAsked(log, ws, at, g.edges[j], l, u);
      JamFound(ws, e, p, q, t);
    }
    if Jam(ws, e) {
      var p, q, t := JamOf(ws, e);
      AskIsWritten(log, ws, at, p, t);
      AskIsWritten(log, ws, at, q, t);
      var i := WriteHasRow(log.states, log.events, log.committed, at[p], t);
      var j := WriteHasRow(log.states, log.events, log.committed, at[q], t);
      RowOfAsk(log, ws, at, p, t);
      RowOfAsk(log, ws, at, q, t);
      assert g.edges[i] == RowFor(log.events, log.committed, at[p], t, |log.events|);
      JamOnRows(g, e, i, j, t);
    }
  }

  /** The latest update has cleared all evidence. */
  lemma NoEvidence(log: GraphLog, ws: seq<Event>, at: seq<nat>)
    requires Reached(log) && Places(log, ws, at)
    requires log.events != [] && log.committed[|log.events| - 1] && log.events[|log.events| - 1].Replace?
    ensures forall i :: i in Now(log).graph.edges ==> Now(log).graph.edges[i].evidence == None
  {
    RunStep(log.states, log.events, log.committed, |log.events| - 1);
    hide IsRun, Twins;
  }

  lemma JammedRows(g: Graph, e: Event) returns (i: int, j: int)
    requires e.Write? && ClosingCollides(g, e) && forall k :: k in g.edges ==> g.edges[k].evidence == None
    ensures i in g.edges && j in g.edges && Closes(e, ShapeOf(g.edges[i])) && ShapeOf(g.edges[j]) == ShapeOf(g.edges[i])
    ensures g.edges[i].validTo == Some(e.msg.timestamp) && g.edges[j].validTo == None
  {
    hide Closes, JoinsOf;
    i :| JamsOn(g, e, i);
    j :| j in g.edges && g.edges[j] == g.edges[i].(validTo := None);
  }

  lemma StandsAsAsked(log: GraphLog, ws: seq<Event>, at: seq<nat>, e: Edge, k: nat, t: Shape)
    returns (p: nat)
    requires Places(log, ws, at) && StandsFor(e, log.events, log.committed, |log.events|, k, t)
    ensures ShapeOf(e) == t && Asks(ws, p, t) && ClosedBy(ws, t, p) == e.validTo
  {
    hide ClosedBy, ClosedSince, Updated, Wrote, JoinsOf;
    assert k in at;
    p :| 0 <= p < |at| && at[p] == k;
    assert PlacedAt(log, ws, at, p);
    WroteInside(log.events, log.committed, k);
    assert Asks(ws, p, t);
  }

  lemma JamFound(ws: seq<Event>, e: Event, p: nat, q: nat, t: Shape)
    requires e.Write? && Asks(ws, p, t) && Asks(ws, q, t) && Closes(e, t)
    requires ClosedBy(ws, t, p) == Some(e.msg.timestamp) && ClosedBy(ws, t, q) == None
    ensures Jam(ws, e)
  {
  }

  lemma JamOf(ws: seq<Event>, e: Event) returns (p: nat, q: nat, t: Shape)
    requires e.Write? && Jam(ws, e)
    ensures Asks(ws, p, t) && Asks(ws, q, t) && Closes(e, t)
    ensures ClosedBy(ws, t, p) == Some(e.msg.timestamp) && ClosedBy(ws, t, q) == None
  {
    hide Asks, ClosedBy, Closes;
    p, q, t :| && Asks(ws, p, t) && Asks(ws, q, t) && Closes(e, t)
               && ClosedBy(ws, t, p) == Some(e.msg.timestamp) && ClosedBy(ws, t, q) == None;
  }

  lemma AskIsWritten(log: GraphLog, ws: seq<Event>, at: seq<nat>, p: nat, t: Shape)
    requires Places(log, ws, at) && Asks(ws, p, t)
    ensures p < |at| && Wrote(log.events, log.committed, |log.events|, at[p])
    ensures at[p] < |log.events| && log.events[at[p]].Write? && t in JoinsOf(log.events[at[p]])
    ensures ClosedBy(ws, t, p) == ClosedSince(log.events, log.committed, t, at[p], |log.events|)
  {
    hide ClosedBy, ClosedSince, Updated, JoinsOf;
    assert PlacedAt(log, ws, at, p);
  }

  lemma RowOfAsk(log: GraphLog, ws: seq<Event>, at: seq<nat>, p: nat, t: Shape)
    requires Places(log, ws, at) && Asks(ws, p, t) && log.events != []
    requires log.committed[|log.events| - 1] && log.events[|log.events| - 1].Replace?
    ensures p < |at| && at[p] < |log.events| && log.events[at[p]].Write?
    ensures RowFor(log.events, log.committed, at[p], t, |log.events|) ==
            Edge(t.src, t.dst, t.kind, t.from, ClosedBy(ws, t, p), None)
  {
    hide ClosedBy, ClosedSince, Updated, JoinsOf, Wrote, Places;
    AskIsWritten(log, ws, at, p, t);
    PlacesShape(log, ws, at);
    JustUpdated(log.events, log.committed, at[p] + 1);
  }

  lemma PlacesShape(log: GraphLog, ws: seq<Event>, at: seq<nat>)
    requires Places(log, ws, at)
    ensures |at| == |ws| && |log.committed| == |log.events|
  {
  }

  lemma JamOnRows(g: Graph, e: Event, i: int, j: int, t: Shape)
    requires e.Write? && Closes(e, t) && i in g.edges && j in g.edges
    requires g.edges[i] == Edge(t.src, t.dst, t.kind, t.from, Some(e.msg.timestamp), None)
    requires g.edges[j] == Edge(t.src, t.dst, t.kind, t.from, None, None)
    ensures ClosingCollides(g, e)
  {
    hide Closes, JoinsOf;
    assert ShapeOf(g.edges[i]) == t;
    assert g.edges[j] == g.edges[i].(validTo := None);
    assert JamsOn(g, e, i);
  }
}
