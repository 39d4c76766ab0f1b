/** When the store stops taking snapshot updates.

    A snapshot update deletes and re-inserts the message rows, which clears the evidence of
    every edge.  Two edges that differ in nothing but their evidence would then collide on the
    unique index, so the update fails, and with it every later one. */
module GraphWedge {
  import opened Records
  import opened GraphWriter
  import opened GraphHistory
  import opened GraphOutcome
  import opened GraphPlan
  import opened GraphRows

  // ---------- twins ----------

  /** `i` and `j` are different edges that agree on everything but the evidence. */
  ghost predicate TwinPair(g: Graph, i: int, j: int) {
    && i in g.edges && j in g.edges && i != j
    && ShapeOf(g.edges[i]) == ShapeOf(g.edges[j]) && g.edges[i].validTo == g.edges[j].validTo
  }

  lemma TwinsArePairs(g: Graph, messages: set<string>)
    requires Sound(g, messages)
    ensures Twins(g) <==> exists i, j :: TwinPair(g, i, j)
  {
    var d := Detached(g).edges;
    assert d.Keys == g.edges.Keys && forall i :: i in d ==> d[i] == Detach(g.edges[i]);
    forall i, j | i in d && j in d
      ensures KeyOf(d[i]) == KeyOf(d[j]) <==>
                ShapeOf(g.edges[i]) == ShapeOf(g.edges[j]) && g.edges[i].validTo == g.edges[j].validTo
    {
      assert SoundEdge(g, messages, i) && SoundEdge(g, messages, j);
    }
    hide Sound, Detached, KeyOf, ShapeOf, Detach;
    if Twins(g) {
      var i, j :| i in d && j in d && KeyOf(d[i]) == KeyOf(d[j]) && i != j;
      assert TwinPair(g, i, j);
    }
    if i, j :| TwinPair(g, i, j) {
      assert KeyOf(d[i]) == KeyOf(d[j]);
    }
  }

  // ---------- the exact condition ----------

  /** Two committed writes ask for one edge, starting at the same instant; they are different records,
      or an update went through in between; and both edges are still open or were closed at the
      same instant. */
  ghost predicate Collide(events: seq<Event>, committed: seq<bool>, n: nat, a: nat, c: nat, t: Shape) {
    && n <= |events| && |committed| == |events|
    && a < c && Wrote(events, committed, n, a) && Wrote(events, committed, n, c)
    && t in JoinsOf(events[a]) && t in JoinsOf(events[c])
    && (events[a].msg.id != events[c].msg.id || Updated(events, committed, a + 1, c))
    && ClosedSince(events, committed, t, a, n) == ClosedSince(events, committed, t, c, n)
  }

  /** Two rows that stand for different writes of one shape are different rows if an update came
      between the writes or the records differ. */
  lemma RowsDiffer(events: seq<Event>, committed: seq<bool>, a: nat, c: nat, t: Shape)
    requires a < c < |events| && |committed| == |events| && events[a].Write? && events[c].Write? && committed[c]
    requires events[a].msg.id != events[c].msg.id || Updated(events, committed, a + 1, c)
    ensures RowFor(events, committed, a, t, c + 1).evidence != RowFor(events, committed, c, t, c + 1).evidence
  {
    assert !Updated(events, committed, c + 1, c + 1);
    UpdatedOneMore(events, committed, a + 1, c);
    hide ClosedSince;
  }

  lemma CollisionIsTwins(
      states: seq<State>, events: seq<Event>, committed: seq<bool>, n: nat, a: nat, c: nat, t: Shape)
    requires IsRun(states, events, committed) && |states| == |events| + 1 && n <= |events|
    requires Collide(events, committed, n, a, c, t)
    ensures exists i, j :: TwinPair(states[n].graph, i, j)
  {
    hide IsRun, JoinsOf, Updated, ClosedSince, RowFor;
    var i := WriteHasRow(states, events, committed, a, t);
    var j := WriteHasRow(states, events, committed, c, t);
    RowsDiffer(events, committed, a, c, t);
    RowShape(events, committed, a, t, n);
    RowShape(events, committed, c, t, n);
    assert i != j by {
      assert states[c + 1].graph.edges[i] == RowFor(events, committed, a, t, c + 1);
    }
    assert TwinPair(states[n].graph, i, j);
  }

  lemma RowShape(events: seq<Event>, committed: seq<bool>, k: nat, t: Shape, n: nat)
    requires k < n <= |events| && |committed| == |events| && events[k].Write?
    ensures ShapeOf(RowFor(events, committed, k, t, n)) == t
    ensures RowFor(events, committed, k, t, n).validTo == ClosedSince(events, committed, t, k, n)
  {
    hide ClosedSince, Updated;
  }

  /** Rows that stand for different writes, neither record nor update between them differing, are one row. */
  lemma SameRow(events: seq<Event>, committed: seq<bool>, n: nat, a: nat, c: nat, t: Shape)
    requires a <= c < n <= |events| && |committed| == |events| && events[a].Write? && events[c].Write?
    requires events[a].msg.id == events[c].msg.id && !Updated(events, committed, a + 1, c)
    requires ClosedSince(events, committed, t, a, n) == ClosedSince(events, committed, t, c, n)
    ensures RowFor(events, committed, a, t, n) == RowFor(events, committed, c, t, n)
  {
    hide Updated, ClosedSince;
    if a < c {
      UpdatedOneMore(events, committed, c, c);
      UpdatedSplits(events, committed, a + 1, c, n);
      UpdatedSplits(events, committed, c, c + 1, n);
    }
  }

  lemma TwinsAreCollision(
      states: seq<State>, events: seq<Event>, committed: seq<bool>, n: nat, i: int, j: int)
    requires IsRun(states, events, committed) && |states| == |events| + 1 && |committed| == |events| && n <= |events|
    requires TwinPair(states[n].graph, i, j)
    ensures exists a, c, t :: Collide(events, committed, n, a, c, t)
  {
    AlwaysSound(states, events, committed, n);
    UniqueRows(states[n].graph, states[n].messages, i, j);
    hide IsRun, Sound, JoinsOf, Updated, ClosedSince, RowFor;
    var k, t := RowStands(states, events, committed, n, i);
    var l, u := RowStands(states, events, committed, n, j);
    RowShape(events, committed, k, t, n);
    RowShape(events, committed, l, u, n);
    assert t == u;
    var a, c := if k <= l then k else l, if k <= l then l else k;
    if events[a].msg.id == events[c].msg.id && !Updated(events, committed, a + 1, c) {
      SameRow(events, committed, n, a, c, t);
      assert false;
    }
    assert Collide(events, committed, n, a, c, t) by {
      if a == c { SameWriteNotUpdated(events, committed, a); }
    }
  }

  lemma SameWriteNotUpdated(events: seq<Event>, committed: seq<bool>, a: nat)
    ensures !Updated(events, committed, a + 1, a)
  {
  }

  lemma UniqueRows(g: Graph, messages: set<string>, i: int, j: int)
    requires Sound(g, messages) && i in g.edges && j in g.edges && i != j
    ensures g.edges[i] != g.edges[j]
  {
  }

  /** MAIN RESULT.  In every run, two edges differ only in their evidence if and only if two committed
      writes collide. */
  lemma TwinsIff(states: seq<State>, events: seq<Event>, committed: seq<bool>, n: nat)
    requires IsRun(states, events, committed) && n < |states|
    ensures Twins(states[n].graph) <==> exists a, c, t :: Collide(events, committed, n, a, c, t)
  {
    hide *;
    RunShape(states, events, committed);
    AlwaysSound(states, events, committed, n);
    TwinsArePairs(states[n].graph, states[n].messages);
    if Twins(states[n].graph) {
      var i, j :| TwinPair(states[n].graph, i, j);
      TwinsAreCollision(states, events, committed, n, i, j);
    }
    if a, c, t :| Collide(events, committed, n, a, c, t) {
      CollisionIsTwins(states, events, committed, n, a, c, t);
    }
  }

  // ---------- a stopped store ----------

  /** The transaction can go through. */
  ghost predicate CanCommit(s: State, e: Event) {
    exists s' :: Commits(s, e, s')
  }

  lemma UpdateGoes(s: State, messages: set<string>)
    ensures CanCommit(s, Replace(messages)) <==> !Twins(s.graph)
  {
    hide Twins, Detached;
    assert !Twins(s.graph) ==> Commits(s, Replace(messages), State(Detached(s.graph), messages));
  }

  /** An update can commit exactly if no two edges differ in nothing but their evidence. */
  lemma UpdateGoesIff(s: State, messages: set<string>)
    requires Sound(s.graph, s.messages)
    ensures CanCommit(s, Replace(messages)) <==> !exists i, j :: TwinPair(s.graph, i, j)
  {
    hide *;
    UpdateGoes(s, messages);
    TwinsArePairs(s.graph, s.messages);
  }

  lemma CollisionStays(events: seq<Event>, committed: seq<bool>, m: nat, n: nat, a: nat, c: nat, t: Shape)
    requires Collide(events, committed, m, a, c, t) && m <= n <= |events|
    ensures Collide(events, committed, n, a, c, t)
  {
    hide JoinsOf, Updated;
    ClosedSplits(events, committed, t, a, m, n);
    ClosedSplits(events, committed, t, c, m, n);
    hide ClosedSince;
  }

  lemma NoUpdateCommits(s: State, e: Event, s': State)
    requires Commits(s, e, s') && Twins(s.graph)
    ensures e.Write? && s'.messages == s.messages
  {
  }

  /** MAIN RESULT.  Once two edges differ only in their evidence, they do so for ever, and from
      then on no snapshot update commits: the store accepts no further record. */
  lemma {:induction false} WedgedForEver(
      states: seq<State>, events: seq<Event>, committed: seq<bool>, at: nat, later: nat)
    requires IsRun(states, events, committed) && at <= later < |states| && Twins(states[at].graph)
    ensures Twins(states[later].graph) && states[later].messages == states[at].messages
    ensures at < later && later - 1 < |events| && later - 1 < |committed| && events[later - 1].Replace? ==>
              !committed[later - 1]
    decreases later
  {
    hide *;
    RunShape(states, events, committed);
    if at < later {
      WedgedForEver(states, events, committed, at, later - 1);
      RunStep(states, events, committed, later - 1);
      TwinsIff(states, events, committed, later - 1);
      TwinsIff(states, events, committed, later);
      var a, c, t :| Collide(events, committed, later - 1, a, c, t);
      CollisionStays(events, committed, later - 1, later, a, c, t);
      if committed[later - 1] {
        NoUpdateCommits(states[later - 1], events[later - 1], states[later]);
      }
    }
  }

  // ---------- what follows from the condition ----------

  lemma NeverClosed(events: seq<Event>, committed: seq<bool>, t: Shape, k: nat, n: nat)
    requires n <= |events| && |committed| == |events| && t.kind !in TASK_EDGES
    ensures ClosedSince(events, committed, t, k, n) == None
  {
  }

  /** Two committed graph writes that ask for the same lasting edge, starting at the same instant, stop
      the store: at once if their records differ, and for one record delivered twice as soon as any
      snapshot update committed in between. */
  lemma SharedEdgeWedges(
      states: seq<State>, events: seq<Event>, committed: seq<bool>, a: nat, c: nat, t: Shape)
    requires IsRun(states, events, committed) && a < c < |events| && |committed| == |events| && |states| == |events| + 1
    requires events[a].Write? && committed[a] && events[c].Write? && committed[c]
    requires t in JoinsOf(events[a]) && t in JoinsOf(events[c]) && t.kind !in TASK_EDGES
    requires events[a].msg.id != events[c].msg.id || Updated(events, committed, a + 1, c)
    ensures Twins(states[c + 1].graph)
  {
    hide *;
    TwinsIff(states, events, committed, c + 1);
    LastingCollides(events, committed, a, c, t);
  }

  lemma LastingCollides(events: seq<Event>, committed: seq<bool>, a: nat, c: nat, t: Shape)
    requires a < c < |events| && |committed| == |events|
    requires events[a].Write? && committed[a] && events[c].Write? && committed[c]
    requires t in JoinsOf(events[a]) && t in JoinsOf(events[c]) && t.kind !in TASK_EDGES
    requires events[a].msg.id != events[c].msg.id || Updated(events, committed, a + 1, c)
    ensures Collide(events, committed, c + 1, a, c, t)
  {
    hide JoinsOf, Updated;
    NeverClosed(events, committed, t, a, c + 1);
    NeverClosed(events, committed, t, c, c + 1);
    hide ClosedSince;
  }

  /** So redelivering any record stops the store, whatever happens in between: its own first
      transaction is a committed update. */
  lemma RedeliveryWedges(states: seq<State>, events: seq<Event>, committed: seq<bool>, a: nat, b: nat, c: nat)
    requires IsRun(states, events, committed) && |committed| == |events| && |states| == |events| + 1
    requires a < b < c < |events|
    requires events[a].Write? && committed[a] && events[b].Replace? && committed[b] && events[c].Write? && committed[c]
    requires events[a].msg == events[c].msg
    ensures Twins(states[c + 1].graph)
  {
    MentionIsLasting(events[a]);
    MentionIsLasting(events[c]);
    assert Updated(events, committed, a + 1, c);
    hide *;
    SharedEdgeWedges(states, events, committed, a, c, Mention(events[a].msg));
  }

  /** No two committed writes ask for a common edge. */
  ghost predicate NothingShared(events: seq<Event>, committed: seq<bool>, n: nat) {
    forall a: nat, c: nat :: a < c && Wrote(events, committed, n, a) && Wrote(events, committed, n, c) ==>
      JoinsOf(events[a]) !! JoinsOf(events[c])
  }

  /** As long as no two committed writes ask for a common edge, no update is refused. */
  lemma NeverWedged(states: seq<State>, events: seq<Event>, committed: seq<bool>, n: nat)
    requires IsRun(states, events, committed) && n < |states| && NothingShared(events, committed, n)
    ensures !Twins(states[n].graph)
    ensures forall messages :: CanCommit(states[n], Replace(messages))
  {
    TwinsIff(states, events, committed, n);
    hide IsRun, Twins, JoinsOf, Updated, ClosedSince, CanCommit;
    assert !exists a, c, t :: Collide(events, committed, n, a, c, t);
    forall messages ensures CanCommit(states[n], Replace(messages)) {
      UpdateGoes(states[n], messages);
    }
  }
}
