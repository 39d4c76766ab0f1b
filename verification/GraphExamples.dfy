/** Runs in which a transaction is refused or an edge stays open, step by step. */
module GraphExamples {
  import opened Text
  import opened Records
  import opened GraphWriter
  import opened GraphHistory
  import opened GraphOutcome
  import opened GraphPlan
  import opened GraphRows
  import opened GraphWedge
  import opened GraphCommits

  // ---------- runs in which everything goes through ----------

  function Yes(n: nat): seq<bool> {
    seq(n, i => true)
  }

  ghost predicate Smooth(states: seq<State>, events: seq<Event>) {
    IsRun(states, events, Yes(|events|))
  }

  lemma SmoothShape(states: seq<State>, events: seq<Event>)
    requires Smooth(states, events)
    ensures |states| == |events| + 1 && IsRun(states, events, Yes(|events|)) && |Yes(|events|)| == |events|
  {
    hide Commits;
  }

  lemma Nothing()
    ensures Smooth([START], [])
  {
  }

  lemma Grow(states: seq<State>, events: seq<Event>, e: Event) returns (more: seq<State>)
    requires Smooth(states, events) && |states| > 0 && CanCommit(states[|states| - 1], e)
    ensures Smooth(more, events + [e]) && |more| == |events| + 2 && more[..|states|] == states
    ensures Commits(more[|events|], e, more[|events| + 1])
  {
    SmoothShape(states, events);
    var s' := Next(states[|states| - 1], e);
    more := states + [s'];
    hide Commits, CanCommit;
    RunGrows(states, events, Yes(|events|), e, s');
    assert Yes(|events + [e]|) == Yes(|events|) + [true];
  }

  lemma RunGrows(states: seq<State>, events: seq<Event>, committed: seq<bool>, e: Event, s': State)
    requires IsRun(states, events, committed) && Commits(states[|states| - 1], e, s')
    ensures IsRun(states + [s'], events + [e], committed + [true])
  {
    hide Commits;
    var more := states + [s'];
    assert forall i :: 0 <= i < |states| ==> more[i] == states[i];
  }

  /** No two writes collide so far. */
  ghost predicate Free(events: seq<Event>) {
    forall a, c, t :: !Collide(events, Yes(|events|), |events|, a, c, t)
  }

  lemma GrowUpdate(states: seq<State>, events: seq<Event>, messages: set<string>) returns (more: seq<State>)
    requires Smooth(states, events) && Free(events)
    ensures Smooth(more, events + [Replace(messages)]) && |more| == |events| + 2
    ensures more[|events| + 1].messages == messages
  {
    SmoothShape(states, events);
    hide *;
    FreeMeans(events);
    TwinsIff(states, events, Yes(|events|), |events|);
    UpdateGoes(states[|events|], messages);
    more := Grow(states, events, Replace(messages));
    UpdateSets(more[|events|], messages, more[|events| + 1]);
  }

  lemma FreeMeans(events: seq<Event>)
    requires Free(events)
    ensures !exists a, c, t :: Collide(events, Yes(|events|), |events|, a, c, t)
  {
  }

  lemma UpdateSets(s: State, messages: set<string>, s': State)
    requires Commits(s, Replace(messages), s')
    ensures s'.messages == messages
  {
  }

  lemma GrowWrite(states: seq<State>, events: seq<Event>, e: Event) returns (more: seq<State>)
    requires Smooth(states, events) && |states| == |events| + 1
    requires e.Write? && e.msg.timestamp != "" && e.msg.id != "" && e.msg.id in states[|events|].messages
    requires !ClosingCollides(states[|events|].graph, e)
    ensures Smooth(more, events + [e]) && |more| == |events| + 2
  {
    SmoothShape(states, events);
    hide *;
    AlwaysSound(states, events, Yes(|events|), |events|);
    WriteCommitsIff(states[|events|], e);
    more := Grow(states, events, e);
  }

  /** An update and a write with nothing to close. */
  lemma GrowOpen(states: seq<State>, events: seq<Event>, messages: set<string>, e: Event) returns (more: seq<State>)
    requires Smooth(states, events) && Free(events)
    requires e.Write? && e.msg.timestamp != "" && e.msg.id != "" && e.msg.id in messages && Open(PlanOf(e))
    ensures Smooth(more, events + [Replace(messages), e]) && |more| == |events| + 3
  {
    hide *;
    var middle := GrowUpdate(states, events, messages);
    ClosesNothing(middle[|events| + 1].graph, e);
    more := GrowWrite(middle, events + [Replace(messages)], e);
    assert events + [Replace(messages)] + [e] == events + [Replace(messages), e];
  }

  // ---------- the messages ----------

  const AT := "2026-04-10T12:00:00Z"

  function Note(id: string, topic: string): Message {
    Message(id, topic, topic, AT, "", id, "", "", "", "", "")
  }

  /** `r` requests task `k`. */
  function Ask(id: string): Event {
    Write("requests", Note(id, "requests"), Payload(Some(RequestPayload("k", "", "", "r", "", "")), None, None, None))
  }

  /** Task `k` is completed. */
  function Done(id: string): Event {
    Write("tasks.status", Note(id, "status"), Payload(None, None, Some(StatusPayload("k", "", "completed", "")), None))
  }

  /** Task `k` is completed, says a response that names nobody. */
  function Reply(id: string): Event {
    Write("responses", Note(id, "responses"),
          Payload(None, Some(ResponsePayload("k", "", "", "completed")), None, None))
  }

  const SENT := Shape("sent", "agent:r", "task:k", AT)

  lemma Names()
    ensures EntityId("task", "k") == "task:k" && EntityId("agent", "r") == "agent:r" && IsTerminal("completed")
    ensures !Blank("k") && !Blank("r") && Blank("")
  {
    TrimmedAlready("completed");
    assert ToLower("completed") == "completed";
    assert TrimSpace("k") == "k" && TrimSpace("r") == "r";
    assert "task" + ":" + "k" == "task:k" && "agent" + ":" + "r" == "agent:r";
  }

  lemma AskPlan(id: string)
    ensures JoinsOf(Ask(id)) == {Mention(Note(id, "requests")), SENT} && Open(PlanOf(Ask(id)))
    ensures forall t :: !Closes(Ask(id), t)
  {
    var msg, p := Note(id, "requests"), RequestPayload("k", "", "", "r", "", "");
    Names();
    var a, b := Seen("task", "k", "k", AT, map[]), Seen("agent", "r", "r", AT, map[]);
    var sent := Join("sent", "agent:r", "task:k");
    hide EntityId, Blank;
    assert RequestPlan(msg, p) == [a, b, sent];
    hide Plan, Mention;
    ThreeAndMore(Ask(id), [a, b, sent]);
    LastJoin(a, b, sent, msg);
    assert ShapeOf(EdgeFor(sent, msg)) == SENT;
  }

  lemma LastJoin(a: Action, b: Action, c: Action, msg: Message)
    requires !a.Join? && !b.Join? && c.Join?
    ensures Joins([a, b, c], msg) == {ShapeOf(EdgeFor(c, msg))}
  {
    assert c in [a, b, c];
  }

  /** The plan of a message without a sender: its mention, and what its branch adds. */
  lemma ThreeAndMore(e: Event, rest: seq<Action>)
    requires e.Write? && Blank(e.msg.sender) && rest == BranchPlan(e.branch, e.msg, e.payload)
    ensures JoinsOf(e) == {Mention(e.msg)} + Joins(rest, e.msg)
    ensures forall a :: a in PlanOf(e) && a.Finish? <==> a in rest && a.Finish?
  {
    hide EntityId, Blank, BranchPlan, FallbackId;
    var plan := PlanOf(e);
    assert plan == plan[..3] + rest;
    var mention := Join("mentions", EntityId("correlation", Correlation(e.msg)), EntityId("topic", e.msg.topic));
    assert plan[2] == mention && plan[2] in plan;
    assert forall a :: a in plan <==> a == plan[0] || a == plan[1] || a == mention || a in rest;
    assert ShapeOf(EdgeFor(mention, e.msg)) == Mention(e.msg);
  }

  lemma DonePlan(id: string)
    ensures JoinsOf(Done(id)) == {Mention(Note(id, "status"))}
    ensures forall t :: Closes(Done(id), t) <==> t.kind in TASK_EDGES && t.dst == "task:k"
  {
    var msg := Note(id, "status");
    Names();
    hide EntityId, Blank, IsTerminal;
    var seen := Seen("task", "k", "k", AT, map["status" := "completed", "summary" := ""]);
    assert StatusPlan(msg, Done(id).payload.status.value) == [seen, Finish("task:k")];
    ThreeAndMore(Done(id), [seen, Finish("task:k")]);
    hide PlanOf, Mention;
    assert Joins([seen, Finish("task:k")], msg) == {};
  }

  lemma ReplyPlan(id: string)
    ensures Open(PlanOf(Reply(id))) && (forall t :: !Closes(Reply(id), t))
            && !Attributed("responses", Reply(id).msg, Reply(id).payload)
    ensures EndedTask("responses", Reply(id).payload) == Some("task:k")
  {
    var msg := Note(id, "responses");
    Names();
    hide EntityId, Blank, IsTerminal;
    var seen := Seen("task", "k", "k", AT, map["status" := "completed"]);
    assert ResponsePlan(msg, Reply(id).payload.response.value) == [seen];
    ThreeAndMore(Reply(id), [seen]);
    hide PlanOf;
  }

  // ---------- delivered twice ----------

  lemma FewWrites(events: seq<Event>)
    requires forall i :: 0 <= i < |events| && i != 1 ==> events[i].Replace?
    ensures Free(events)
  {
    hide JoinsOf, ClosedSince, Updated;
  }

  lemma RawIsOpen(msg: Message)
    ensures Open(PlanOf(Write("raw", msg, NO_PAYLOAD)))
  {
    hide EntityId, FallbackId, Blank;
  }

  /** For every record of raw text: deliver it twice, let everything go through that can, and the
      update after that is refused. */
  lemma DeliveredTwice(msg: Message) returns (states: seq<State>, events: seq<Event>)
    requires msg.id != "" && msg.timestamp != ""
    ensures var update, write := Replace({msg.id}), Write("raw", msg, NO_PAYLOAD);
            && events == [update, write, update, write] && Smooth(states, events) && |states| == 5
            && !CanCommit(states[4], update)
  {
    hide *;
    var update, write := Replace({msg.id}), Write("raw", msg, NO_PAYLOAD);
    RawIsOpen(msg);
    Nothing();
    FewWrites([]);
    var half := GrowOpen([START], [], {msg.id}, write);
    assert [] + [update, write] == [update, write];
    FewWrites([update, write]);
    states := GrowOpen(half, [update, write], {msg.id}, write);
    events := [update, write, update, write];
    assert [update, write] + [update, write] == events;
    SmoothShape(states, events);
    assert Yes(4)[1] && Yes(4)[2] && Yes(4)[3] by { YesAt(4); }
    RedeliveryWedges(states, events, Yes(4), 1, 2, 3);
    UpdateGoes(states[4], {msg.id});
  }

  lemma YesAt(n: nat)
    ensures |Yes(n)| == n && forall i :: 0 <= i < n ==> Yes(n)[i]
  {
  }

  // ---------- requested twice in one second ----------

  lemma Collision(events: seq<Event>, a: nat, c: nat, t: Shape)
    requires a < c < |events| && events[a].Write? && events[c].Write? && events[a].msg.id != events[c].msg.id
    requires t in JoinsOf(events[a]) && t in JoinsOf(events[c])
    requires forall j :: a <= j < |events| ==> !Closes(events[j], t)
    ensures exists a, c, t :: Collide(events, Yes(|events|), |events|, a, c, t)
  {
    hide JoinsOf, Closes;
    var n := |events|;
    NotClosed(events, Yes(n), t, a, n);
    NotClosed(events, Yes(n), t, c, n);
    hide ClosedSince, Updated;
    assert Collide(events, Yes(n), n, a, c, t);
  }

  lemma UpdatesCloseNothing(messages: set<string>)
    ensures forall t :: !Closes(Replace(messages), t)
  {
  }

  /** Two requests for one task by one requester in one second, under different correlations: the
      next update is refused, for the task edge alone. */
  lemma RequestedTwice() returns (states: seq<State>, events: seq<Event>)
    ensures events == [Replace({"1"}), Ask("1"), Replace({"1", "2"}), Ask("2")]
            && Smooth(states, events) && |states| == 5
    ensures !CanCommit(states[4], Replace({"1", "2", "3"}))
  {
    hide *;
    AskPlan("1");
    AskPlan("2");
    AskIsWrite("1");
    AskIsWrite("2");
    Nothing();
    FewWrites([]);
    var half := GrowOpen([START], [], {"1"}, Ask("1"));
    var first := [Replace({"1"}), Ask("1")];
    assert [] + first == first;
    FewWrites(first);
    states := GrowOpen(half, first, {"1", "2"}, Ask("2"));
    events := [Replace({"1"}), Ask("1"), Replace({"1", "2"}), Ask("2")];
    assert first + [Replace({"1", "2"}), Ask("2")] == events;
    UpdatesCloseNothing({"1", "2"});
    Collision(events, 1, 3, SENT);
    SmoothShape(states, events);
    TwinsIff(states, events, Yes(4), 4);
    UpdateGoes(states[4], {"1", "2", "3"});
  }

  lemma AskIsWrite(id: string)
    ensures Ask(id).Write? && Ask(id).msg.id == id && Ask(id).msg.timestamp != ""
  {
  }

  // ---------- a response that names nobody ----------

  lemma ReplyIsWrite(id: string)
    ensures Reply(id).Write? && Reply(id).msg.id == id && Reply(id).msg.timestamp != ""
  {
  }

  /** A request and a terminal response that names nobody: both go through, and the requester's edge
      into the task stays open. */
  lemma AnsweredByNobody() returns (states: seq<State>, events: seq<Event>)
    ensures events == [Replace({"1"}), Ask("1"), Replace({"1", "2"}), Reply("2")]
            && Smooth(states, events) && |states| == 5
    ensures EndedTask("responses", Reply("2").payload) == Some("task:k") && !NoneOpen(states[4].graph, "task:k")
  {
    hide *;
    AskPlan("1");
    ReplyPlan("2");
    AskIsWrite("1");
    ReplyIsWrite("2");
    Nothing();
    FewWrites([]);
    var half := GrowOpen([START], [], {"1"}, Ask("1"));
    var first := [Replace({"1"}), Ask("1")];
    assert [] + first == first;
    FewWrites(first);
    states := GrowOpen(half, first, {"1", "2"}, Reply("2"));
    events := [Replace({"1"}), Ask("1"), Replace({"1", "2"}), Reply("2")];
    assert first + [Replace({"1", "2"}), Reply("2")] == events;
    UpdatesCloseNothing({"1", "2"});
    SmoothShape(states, events);
    YesAt(4);
    JustWritten(events, 1);
    var i := WriteHasRow(states, events, Yes(4), 1, SENT);
    NotClosed(events, Yes(4), SENT, 1, 4);
    RowShape(events, Yes(4), 1, SENT, 4);
    OpenRow(states[4].graph, i);
  }

  lemma JustWritten(events: seq<Event>, k: nat)
    requires k < |events| && events[k].Write?
    ensures Wrote(events, Yes(|events|), |events|, k)
  {
  }

  lemma OpenRow(g: Graph, i: int)
    requires i in g.edges && ShapeOf(g.edges[i]) == SENT && g.edges[i].validTo.None?
    ensures !NoneOpen(g, "task:k")
  {
    assert OpenInto(g, "task:k", i);
  }

  // ---------- closings that jam ----------

  /** The edge of a terminal response into its task. */
  function Responded(msg: Message, p: ResponsePayload): Shape {
    Shape("responded", EntityId("agent", FirstNonEmpty(p.responderId, msg.sender)),
          EntityId("task", p.taskId), msg.timestamp)
  }

  lemma ResponsePlanHas(e: Event, p: ResponsePayload)
    requires e.Write? && e.branch == "responses" && e.payload.response == Some(p)
    requires EndedTask(e.branch, e.payload).Some? && Attributed(e.branch, e.msg, e.payload)
    ensures Responded(e.msg, p) in JoinsOf(e) && Closes(e, Responded(e.msg, p))
  {
    var task := EntityId("task", p.taskId);
    var responder := FirstNonEmpty(p.responderId, e.msg.sender);
    var plan := PlanOf(e);
    EndsWithFinish(e);
    hide EntityId, Blank, FirstNonEmpty, FallbackId, IsTerminal;
    var join := Join("responded", EntityId("agent", responder), task);
    assert ResponsePlan(e.msg, p)[2] == join;
    assert join in ResponsePlan(e.msg, p);
    BranchIsPart(e);
    assert join in plan && ShapeOf(EdgeFor(join, e.msg)) == Responded(e.msg, p);
    assert plan[|plan| - 1] in plan;
  }

  lemma BranchIsPart(e: Event)
    requires e.Write?
    ensures forall a :: a in BranchPlan(e.branch, e.msg, e.payload) ==> a in PlanOf(e)
  {
    hide BranchPlan, EntityId, Blank, FallbackId, AgentJoins;
  }

  /** For every terminal response that names somebody: the live loop and a replay hold it at once, both
      update the snapshot and then write its edges; the second write is refused. */
  lemma RespondedTwice(e: Event, p: ResponsePayload) returns (states: seq<State>, events: seq<Event>)
    requires e.Write? && e.msg.id != "" && e.msg.timestamp != ""
    requires e.branch == "responses" && e.payload.response == Some(p)
    requires EndedTask(e.branch, e.payload).Some? && Attributed(e.branch, e.msg, e.payload)
    ensures var update := Replace({e.msg.id});
            && events == [update, update, e] && Smooth(states, events) && |states| == 4
            && e.msg.id in states[3].messages && ClosingCollides(states[3].graph, e) && !CanCommit(states[3], e)
  {
    hide *;
    var update := Replace({e.msg.id});
    ResponsePlanHas(e, p);
    Nothing();
    FewWrites([]);
    var one := GrowUpdate([START], [], {e.msg.id});
    assert [] + [update] == [update];
    FewWrites([update]);
    var two := GrowUpdate(one, [update], {e.msg.id});
    events := [update, update, e];
    assert [update] + [update] == [update, update] && [update, update] + [e] == events;
    NoRowsSoFar(two, [update, update]);
    states := GrowWrite(two, [update, update], e);
    SmoothShape(states, events);
    YesAt(3);
    AlwaysSound(states, events, Yes(3), 2);
    AlwaysSound(states, events, Yes(3), 3);
    RunStep(states, events, Yes(3), 2);
    var i := CommitLeavesRow(states[2], e, states[3], Responded(e.msg, p));
    JammedRow(states[3].graph, e, Responded(e.msg, p), i);
    WriteCommitsIff(states[3], e);
    CommittedIsRetained(states[2], e, states[3]);
    WriteKeepsMessages(states[2], e, states[3]);
  }

  lemma WriteKeepsMessages(s: State, e: Event, s': State)
    requires e.Write? && Commits(s, e, s')
    ensures s'.messages == s.messages
  {
  }

  lemma NoRowsSoFar(states: seq<State>, events: seq<Event>)
    requires Smooth(states, events) && forall e: Event :: e in events ==> e.Replace?
    ensures |states| == |events| + 1
    ensures forall e: Event :: e.Write? ==> !ClosingCollides(states[|events|].graph, e)
  {
    SmoothShape(states, events);
    hide IsRun, Closes, StandsFor, JoinsOf;
    forall i | i in states[|events|].graph.edges ensures false {
      var k, t := RowStands(states, events, Yes(|events|), |events|, i);
      StandsAtWrite(states[|events|].graph.edges[i], events, k, t);
    }
  }

  lemma StandsAtWrite(e: Edge, events: seq<Event>, k: nat, t: Shape)
    requires StandsFor(e, events, Yes(|events|), |events|, k, t)
    ensures k < |events| && events[k] in events && events[k].Write?
  {
  }

  lemma JammedRow(g: Graph, e: Event, t: Shape, i: int)
    requires e.Write? && Closes(e, t) && t in JoinsOf(e)
    requires i in g.edges && g.edges[i] == RowAfter(Asked(t, e.msg.id), e)
    ensures ClosingCollides(g, e)
  {
    hide PlanOf, JoinsOf;
    assert JamsOn(g, e, i);
  }

  lemma DoneIsWrite(id: string)
    ensures Done(id).Write? && Done(id).msg.id == id && Done(id).msg.timestamp != ""
  {
  }

  /** The update that leaves the first `n` messages in the table. */
  function Kept(n: nat): Event {
    Replace(FirstIds(n))
  }

  function FirstIds(n: nat): set<string> {
    if n == 1 then {"1"} else if n == 2 then {"1", "2"} else if n == 3 then {"1", "2", "3"} else {"1", "2", "3", "4"}
  }

  lemma KeptIsUpdate(n: nat)
    ensures Kept(n).Replace? && Kept(n) == Replace(FirstIds(n)) && forall t :: !Closes(Kept(n), t)
    ensures n == 1 ==> "1" in FirstIds(n)
    ensures n == 2 ==> "2" in FirstIds(n)
    ensures n == 3 ==> "3" in FirstIds(n)
    ensures n == 4 ==> "4" in FirstIds(n)
  {
  }

  /** The steps up to the second completion. */
  function FirstThree(): seq<Event> {
    [Kept(1), Ask("1"), Kept(2)]
  }

  function FirstSix(): seq<Event> {
    FirstThree() + [Done("2"), Kept(3), Ask("3")]
  }

  function FirstSeven(): seq<Event> {
    FirstSix() + [Kept(4)]
  }

  lemma StepsAre()
    ensures FirstSeven() == [Kept(1), Ask("1"), Kept(2), Done("2"), Kept(3), Ask("3"),
                             Kept(4)]
  {
  }

  /** What the steps close: the completion closes the task, and the others nothing. */
  lemma StepCloses(j: nat, t: Shape)
    requires j < 7
    ensures j != 3 ==> !Closes(FirstSeven()[j], t)
    ensures j == 3 ==> FirstSeven()[j] == Done("2")
  {
    hide *;
    StepsAre();
    AskPlan("1");
    AskPlan("3");
    KeptIsUpdate(1);
    KeptIsUpdate(2);
    KeptIsUpdate(3);
    KeptIsUpdate(4);
  }

  lemma SentIsTaskEdge()
    ensures SENT.kind in TASK_EDGES && SENT.dst == "task:k"
  {
  }

  /** What closes the requester's edges. */
  lemma ClosedAt(events: seq<Event>, n: nat)
    requires n <= |events| && events <= FirstSeven()
    ensures forall j :: 0 <= j < n && j != 3 ==> !Closes(events[j], SENT)
    ensures n > 3 ==> Closes(events[3], SENT)
  {
    hide *;
    StepsAre();
    DonePlan("2");
    assert SENT.kind in TASK_EDGES && SENT.dst == "task:k" by { SentIsTaskEdge(); }
    forall j | 0 <= j < n ensures j != 3 ==> !Closes(events[j], SENT) {
      StepCloses(j, SENT);
    }
    StepCloses(3, SENT);
  }

  lemma MentionsDiffer()
    ensures Mention(Note("1", "requests")) != Mention(Note("2", "status"))
    ensures Mention(Note("1", "requests")) != Mention(Note("3", "requests"))
    ensures Mention(Note("2", "status")) != Mention(Note("3", "requests"))
    ensures SENT != Mention(Note("1", "requests")) && SENT != Mention(Note("2", "status"))
  {
    assert TrimSpace("1") == "1" && TrimSpace("2") == "2" && TrimSpace("3") == "3";
    assert ("correlation" + ":" + "1")[12] == '1' && ("correlation" + ":" + "2")[12] == '2';
    assert ("correlation" + ":" + "3")[12] == '3';
  }

  /** The two edges of the same shape: one closed, one open. */
  lemma SentRows(events: seq<Event>)
    requires events <= FirstSeven() && 6 <= |events|
    ensures var yes, n := Yes(|events|), |events|;
            ClosedSince(events, yes, SENT, 1, n) == Some(AT) && ClosedSince(events, yes, SENT, 5, n) == None
  {
    hide *;
    StepsAre();
    ClosedAt(events, |events|);
    YesAt(|events|);
    DoneIsWrite("2");
    ClosedFirst(events, Yes(|events|), SENT, 1, 3, |events|);
    NotClosed(events, Yes(|events|), SENT, 5, |events|);
    StampOf("2");
  }

  lemma StampOf(id: string)
    ensures Done(id).Write? && Done(id).msg.timestamp == AT
  {
  }

  lemma FreeIf(events: seq<Event>)
    requires forall a: nat, c: nat, t :: a < c < |events| && SharedBy(events, a, c, t) ==>
               ClosedSince(events, Yes(|events|), t, a, |events|) != ClosedSince(events, Yes(|events|), t, c, |events|)
    ensures Free(events)
  {
    hide JoinsOf, ClosedSince, Updated;
    forall a: nat, c: nat, t ensures !Collide(events, Yes(|events|), |events|, a, c, t) {
      assert Collide(events, Yes(|events|), |events|, a, c, t) ==> SharedBy(events, a, c, t);
    }
  }

  ghost predicate SharedBy(events: seq<Event>, a: nat, c: nat, t: Shape) {
    a < |events| && c < |events| && events[a].Write? && events[c].Write?
    && t in JoinsOf(events[a]) && t in JoinsOf(events[c])
  }

  /** Only the requests share an edge. */
  lemma OnlySent(events: seq<Event>, a: nat, c: nat, t: Shape)
    requires events <= FirstSix() && a < c && SharedBy(events, a, c, t)
    ensures a == 1 && c == 5 && t == SENT
  {
    hide *;
    SharedMeans(events, a, c, t);
    StepsAre();
    AskPlan("1");
    AskPlan("3");
    DonePlan("2");
    MentionsDiffer();
    KeptIsUpdate(1);
    KeptIsUpdate(2);
    KeptIsUpdate(3);
    SplitSeven();
    assert events[a] == FirstSeven()[a] && events[c] == FirstSeven()[c];
  }

  lemma SharedMeans(events: seq<Event>, a: nat, c: nat, t: Shape)
    requires SharedBy(events, a, c, t)
    ensures a < |events| && c < |events| && events[a].Write? && events[c].Write?
    ensures t in JoinsOf(events[a]) && t in JoinsOf(events[c])
  {
  }

  lemma SixAreFree()
    ensures Free(FirstSix())
  {
    hide *;
    var events := FirstSix();
    StepsAre();
    SplitSeven();
    SentRows(events);
    YesAt(|events|);
    forall a: nat, c: nat, t | a < c < |events| && SharedBy(events, a, c, t)
      ensures ClosedSince(events, Yes(|events|), t, a, |events|) != ClosedSince(events, Yes(|events|), t, c, |events|)
    {
      OnlySent(events, a, c, t);
    }
    FreeIf(events);
  }

  /** Request, completion, request and completion of one task within one second: every transaction goes
      through but the last, whose closing jams although its message is retained. */
  lemma CompletedTwice() returns (states: seq<State>, events: seq<Event>)
    ensures events == FirstSeven() && Smooth(states, events) && |states| == 8
    ensures "4" in states[7].messages && ClosingCollides(states[7].graph, Done("4")) && !CanCommit(states[7], Done("4"))
  {
    hide *;
    states := UpToSeven();
    events := FirstSeven();
    SmoothShape(states, events);
    StepsAre();
    YesAt(7);
    AskPlan("1");
    AskPlan("3");
    AskIsWrite("1");
    AskIsWrite("3");
    DonePlan("4");
    DoneIsWrite("4");
    StampOf("4");
    KeptIsUpdate(4);
    JustWritten(events, 1);
    JustWritten(events, 5);
    var i := WriteHasRow(states, events, Yes(7), 1, SENT);
    var j := WriteHasRow(states, events, Yes(7), 5, SENT);
    SentRows(events);
    LastClears(events);
    JammedPair(states[7].graph, events, i, j);
    AlwaysSound(states, events, Yes(7), 7);
    WriteCommitsIff(states[7], Done("4"));
    RunStep(states, events, Yes(7), 6);
    UpdateSets(states[6], FirstIds(4), states[7]);
  }

  lemma LastClears(events: seq<Event>)
    requires events == FirstSeven()
    ensures Updated(events, Yes(7), 2, 7) && Updated(events, Yes(7), 6, 7)
  {
    StepsAre();
    KeptIsUpdate(4);
    hide Ask, Done, Kept, FirstSeven;
    YesAt(7);
    assert events[6].Replace?;
  }

  lemma JammedPair(g: Graph, events: seq<Event>, i: int, j: int)
    requires events == FirstSeven() && events[1].Write? && events[5].Write?
    requires i in g.edges && g.edges[i] == RowFor(events, Yes(7), 1, SENT, 7)
    requires j in g.edges && g.edges[j] == RowFor(events, Yes(7), 5, SENT, 7)
    requires ClosedSince(events, Yes(7), SENT, 1, 7) == Some(AT) && ClosedSince(events, Yes(7), SENT, 5, 7) == None
    requires Updated(events, Yes(7), 2, 7) && Updated(events, Yes(7), 6, 7)
    ensures Done("4").Write? && ClosingCollides(g, Done("4"))
  {
    DonePlan("4");
    StampOf("4");
    hide Updated, ClosedSince, JoinsOf, Done, PlanOf, FirstSeven;
    assert g.edges[j] == g.edges[i].(validTo := None);
    assert JamsOn(g, Done("4"), i);
  }

  lemma UpToSeven() returns (states: seq<State>)
    ensures Smooth(states, FirstSeven()) && |states| == 8
  {
    hide *;
    StepsAre();
    AskPlan("1");
    AskPlan("3");
    AskIsWrite("1");
    AskIsWrite("3");
    DoneIsWrite("2");
    KeptIsUpdate(1);
    KeptIsUpdate(2);
    KeptIsUpdate(3);
    KeptIsUpdate(4);
    Nothing();
    FewWrites([]);
    var two := GrowOpen([START], [], FirstIds(1), Ask("1"));
    var first := [Kept(1), Ask("1")];
    assert [] + first == first;
    KeptIsFew();
    var three := GrowUpdate(two, first, FirstIds(2));
    SplitSeven();
    OpenRowsOnly(three);
    var four := GrowWrite(three, FirstThree(), Done("2"));
    FourAreFree();
    var six := GrowOpen(four, FirstThree() + [Done("2")], FirstIds(3), Ask("3"));
    SixAreFree();
    states := GrowUpdate(six, FirstSix(), FirstIds(4));
  }

  lemma KeptIsFew()
    ensures Free([Kept(1), Ask("1")])
  {
    FewWrites([Kept(1), Ask("1")]);
  }

  lemma SplitSeven()
    ensures FirstSix() <= FirstSeven() && FirstThree() <= FirstSix() && FirstThree() + [Done("2")] <= FirstSix()
    ensures FirstThree() == [Kept(1), Ask("1")] + [Kept(2)]
    ensures FirstSix() == FirstThree() + [Done("2")] + [Kept(3), Ask("3")]
    ensures FirstSeven() == FirstSix() + [Kept(4)]
  {
  }

  lemma FourAreFree()
    ensures Free(FirstThree() + [Done("2")])
  {
    hide *;
    var events := FirstThree() + [Done("2")];
    SplitSeven();
    assert |events| == 4 by { StepsAre(); }
    forall a: nat, c: nat, t | a < c < |events| ensures !SharedBy(events, a, c, t) {
      if SharedBy(events, a, c, t) {
        OnlySent(events, a, c, t);
      }
    }
    FreeIf(events);
  }

  /** Before the first completion nothing is closed. */
  lemma OpenRowsOnly(states: seq<State>)
    requires Smooth(states, FirstThree())
    ensures |states| == 4 && !ClosingCollides(states[3].graph, Done("2"))
  {
    var events := FirstThree();
    SmoothShape(states, events);
    AskPlan("1");
    hide IsRun, Closes, StandsFor, JoinsOf, Ask, Done, RowFor;
    forall i | i in states[3].graph.edges ensures states[3].graph.edges[i].validTo.None? {
      var k, t := RowStands(states, events, Yes(3), 3, i);
      OpenSoFar(states[3].graph.edges[i], k, t);
    }
  }

  lemma OpenSoFar(e: Edge, k: nat, t: Shape)
    requires StandsFor(e, FirstThree(), Yes(3), 3, k, t)
    ensures e.validTo.None?
  {
    StandsWithin(e, FirstThree(), 3, k, t);
    hide *;
    StepsAre();
    SplitSeven();
    forall j | k <= j < 3 ensures !Closes(FirstThree()[j], t) {
      StepCloses(j, t);
    }
    NotClosed(FirstThree(), Yes(3), t, k, 3);
  }

  lemma StandsWithin(e: Edge, events: seq<Event>, n: nat, k: nat, t: Shape)
    requires StandsFor(e, events, Yes(n), n, k, t)
    ensures k < n <= |events| && |Yes(n)| == |events| && e.validTo == ClosedSince(events, Yes(n), t, k, n)
  {
    hide JoinsOf, ClosedSince, Updated;
  }
}
