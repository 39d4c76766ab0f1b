/** The statements of one message come in an orderly way: edges join entities seen before, and a
    closing comes last. */
module GraphPlan {
  import opened Text
  import opened Records
  import opened GraphWriter
  import opened GraphHistory
  import opened GraphOutcome

  ghost predicate Orderly(plan: seq<Action>, ids: set<string>)
    decreases |plan|
  {
    plan == [] ||
    match plan[0]
    case Touch(id, _) => Orderly(plan[1..], ids + {id})
    case Join(_, src, dst) => src in ids && dst in ids && Orderly(plan[1..], ids)
    case Finish(_) => |plan| == 1
  }

  /** No statement closes anything. */
  ghost predicate Open(plan: seq<Action>) {
    forall a :: a in plan ==> !a.Finish?
  }

  lemma {:induction false} OrderlyJoins(plan: seq<Action>, more: seq<Action>, ids: set<string>)
    requires Orderly(plan, ids) && Open(plan) && Orderly(more, ids + Touched(plan))
    ensures Orderly(plan + more, ids)
    decreases |plan|
  {
    if plan == [] {
      assert plan + more == more && ids + Touched(plan) == ids;
    } else {
      var rest := plan[1..];
      assert (plan + more)[1..] == rest + more;
      assert forall a :: a in plan <==> a == plan[0] || a in rest;
      match plan[0]
      case Touch(id, _) =>
        assert ids + Touched(plan) == ids + {id} + Touched(rest);
        OrderlyJoins(rest, more, ids + {id});
      case Join(_, _, _) =>
        assert Touched(plan) == Touched(rest);
        OrderlyJoins(rest, more, ids);
    }
  }

  lemma NothingIsOrderly(ids: set<string>)
    ensures Orderly([], ids)
  {
  }

  /** An entity, and an edge from it or to it. */
  lemma PairIsOrderly(plan: seq<Action>, id: string, dst: string, ids: set<string>)
    requires |plan| == 2 && plan[0].Touch? && plan[0].id == id
    requires plan[1].Join? && plan[1].src == id && plan[1].dst == dst && dst in ids
    ensures Orderly(plan, ids) && Open(plan) && Touched(plan) == {id}
  {
    assert plan[1..] == [plan[1]] && [plan[1]][1..] == [];
    assert Orderly([plan[1]], ids + {id});
    assert plan[0] in plan;
  }

  lemma OneSeen(plan: seq<Action>, id: string, ids: set<string>)
    requires |plan| == 1 && plan[0].Touch? && plan[0].id == id
    ensures Orderly(plan, ids) && Open(plan) && Touched(plan) == {id}
  {
    assert plan[1..] == [] && plan[0] in plan;
  }

  lemma AgentIsOrderly(agent: string, at: string, kind: string, dst: string, ids: set<string>)
    requires dst in ids
    ensures var plan := AgentJoins(agent, at, kind, dst);
            Orderly(plan, ids) && Open(plan) && Touched(plan) == {EntityId("agent", agent)}
  {
    hide EntityId, Orderly, Open, Touched;
    PairIsOrderly(AgentJoins(agent, at, kind, dst), EntityId("agent", agent), dst, ids);
  }

  lemma RequestIsOrderly(msg: Message, p: RequestPayload, ids: set<string>)
    ensures Orderly(RequestPlan(msg, p), ids)
  {
    hide EntityId, Blank, FirstNonEmpty, Orderly, Open, Touched;
    NothingIsOrderly(ids);
    if !Blank(p.taskId) {
      var task := EntityId("task", p.taskId);
      var requester := FirstNonEmpty(p.requesterId, msg.sender);
      var parent := EntityId("task", p.parentTaskId);
      var a := [Seen("task", p.taskId, FirstNonEmpty(p.description, p.taskId), msg.timestamp, map[])];
      var b := if requester == "" then [] else AgentJoins(requester, msg.timestamp, "sent", task);
      var c := if Blank(p.parentTaskId) then []
               else [Seen("task", p.parentTaskId, p.parentTaskId, msg.timestamp, map[]),
                     Join("delegated_to", parent, task)];
      assert RequestPlan(msg, p) == a + (b + c);
      OneSeen(a, task, ids);
      forall more { ParentIsOrderly(c, parent, task, ids + {task} + more); }
      assert ids + {task} + {} == ids + {task};
      if requester == "" {
        assert b + c == c;
      } else {
        AgentIsOrderly(requester, msg.timestamp, "sent", task, ids + {task});
        OrderlyJoins(b, c, ids + {task});
      }
      OrderlyJoins(a, b + c, ids);
    }
  }

  lemma ParentIsOrderly(c: seq<Action>, parent: string, task: string, ids: set<string>)
    requires task in ids
    requires c == [] || (|c| == 2 && c[0].Touch? && c[0].id == parent && c[1] == Join("delegated_to", parent, task))
    ensures Orderly(c, ids)
  {
    if c != [] {
      PairIsOrderly(c, parent, task, ids);
    }
  }

  /** A record, then perhaps an agent's edge to it, then perhaps its closing. */
  lemma RecordIsOrderly(
      plan: seq<Action>, id: string, agent: string, at: string, kind: string, end: seq<Action>, ids: set<string>)
    requires |plan| == 1 && plan[0].Touch? && plan[0].id == id
    requires |end| <= 1 && (end != [] ==> end[0].Finish?)
    ensures Orderly(plan + (AgentJoins(agent, at, kind, id) + end), ids) && Orderly(plan + end, ids)
  {
    OneSeen(plan, id, ids);
    assert end != [] ==> end[1..] == [];
    assert forall all :: Orderly(end, all);
    hide Orderly, Open, Touched, AgentJoins, EntityId;
    OrderlyJoins(plan, end, ids);
    AgentIsOrderly(agent, at, kind, id, ids + {id});
    OrderlyJoins(AgentJoins(agent, at, kind, id), end, ids + {id});
    OrderlyJoins(plan, AgentJoins(agent, at, kind, id) + end, ids);
  }

  lemma BranchIsOrderly(branch: string, msg: Message, payload: Payload, ids: set<string>)
    ensures Orderly(BranchPlan(branch, msg, payload), ids)
  {
    hide EntityId, Blank, FirstNonEmpty, Orderly, IsTerminal, AgentJoins, RequestPlan;
    NothingIsOrderly(ids);
    if branch == "requests" && payload.request.Some? {
      RequestIsOrderly(msg, payload.request.value, ids);
    } else if branch == "responses" && payload.response.Some? && !Blank(payload.response.value.taskId) {
      var p := payload.response.value;
      var seen := Seen("task", p.taskId, p.taskId, msg.timestamp, map["status" := p.status]);
      var end := if IsTerminal(p.status) then [Finish(seen.id)] else [];
      RecordIsOrderly([seen], seen.id, FirstNonEmpty(p.responderId, msg.sender), msg.timestamp, "responded", end, ids);
      OneSeen([seen], seen.id, ids);
      assert [seen] + [] == [seen];
    } else if branch == "traces" && payload.trace.Some? && !Blank(payload.trace.value.traceId) && !Blank(msg.sender) {
      var p := payload.trace.value;
      var title := FirstNonEmpty(p.title, p.traceId);
      var seen := Seen("trace", p.traceId, title, msg.timestamp, map["span_type" := p.spanType]);
      RecordIsOrderly([seen], seen.id, msg.sender, msg.timestamp, "spans", [], ids);
      var joins := AgentJoins(msg.sender, msg.timestamp, "spans", seen.id);
      assert joins + [] == joins;
    } else if branch == "tasks.status" && payload.status.Some? && !Blank(payload.status.value.taskId) {
      var p := payload.status.value;
      var seen := Seen("task", p.taskId, p.taskId, msg.timestamp, map["status" := p.status, "summary" := p.summary]);
      var end := if IsTerminal(p.status) then [Finish(seen.id)] else [];
      RecordIsOrderly([seen], seen.id, "", msg.timestamp, "", end, ids);
    }
  }

  /** Every plan is orderly. */
  lemma PlanIsOrderly(branch: string, msg: Message, payload: Payload)
    ensures Orderly(Plan(branch, msg, payload), {})
  {
    hide *;
    var topic, correlation := EntityId("topic", msg.topic), EntityId("correlation", Correlation(msg));
    var front, member := PlanParts(branch, msg, payload, topic, correlation);
    var ids := {topic, correlation};
    FrontIsOrderly(front, topic, correlation);
    MemberIsOrderly(branch, msg, payload, member, correlation, ids);
    assert {} + ids == ids;
    OrderlyJoins(front, member + BranchPlan(branch, msg, payload), {});
  }

  lemma PlanParts(branch: string, msg: Message, payload: Payload, topic: string, correlation: string)
    returns (front: seq<Action>, member: seq<Action>)
    requires topic == EntityId("topic", msg.topic) && correlation == EntityId("correlation", Correlation(msg))
    ensures Plan(branch, msg, payload) == front + (member + BranchPlan(branch, msg, payload))
    ensures member == if Blank(msg.sender) then [] else AgentJoins(msg.sender, msg.timestamp, "member_of", correlation)
    ensures |front| == 3 && front[0].Touch? && front[0].id == topic && front[1].Touch? && front[1].id == correlation
    ensures front[2] == Join("mentions", correlation, topic)
  {
    hide EntityId, Blank, BranchPlan, FallbackId, AgentJoins;
    front := Plan(branch, msg, payload)[..3];
    member := if Blank(msg.sender) then [] else AgentJoins(msg.sender, msg.timestamp, "member_of", correlation);
  }

  lemma MemberIsOrderly(
      branch: string, msg: Message, payload: Payload, member: seq<Action>, correlation: string, ids: set<string>)
    requires member == if Blank(msg.sender) then [] else AgentJoins(msg.sender, msg.timestamp, "member_of", correlation)
    requires correlation in ids
    ensures Orderly(member + BranchPlan(branch, msg, payload), ids)
  {
    hide *;
    var rest := BranchPlan(branch, msg, payload);
    if Blank(msg.sender) {
      BranchIsOrderly(branch, msg, payload, ids);
      assert member + rest == rest;
    } else {
      AgentIsOrderly(msg.sender, msg.timestamp, "member_of", correlation, ids);
      BranchIsOrderly(branch, msg, payload, ids + {EntityId("agent", msg.sender)});
      OrderlyJoins(member, rest, ids);
    }
  }

  lemma FrontIsOrderly(front: seq<Action>, topic: string, correlation: string)
    requires |front| == 3 && front[0].Touch? && front[0].id == topic && front[1].Touch? && front[1].id == correlation
    requires front[2] == Join("mentions", correlation, topic)
    ensures Orderly(front, {}) && Open(front) && Touched(front) == {topic, correlation}
  {
    assert front[1..][1..] == [front[2]] && [front[2]][1..] == [];
    assert Orderly([front[2]], {} + {topic} + {correlation});
    assert Orderly(front[1..], {} + {topic});
    assert front[0] in front && front[1] in front && front[2] in front;
  }

  // ---------- edges every message asks for ----------

  /** The edge from a message's correlation to its topic. */
  function Mention(msg: Message): Shape {
    Shape("mentions", EntityId("correlation", Correlation(msg)), EntityId("topic", msg.topic), msg.timestamp)
  }

  lemma MentionIsLasting(e: Event)
    requires e.Write?
    ensures Mention(e.msg) in JoinsOf(e) && Mention(e.msg).kind !in TASK_EDGES
  {
    var plan := PlanOf(e);
    hide EntityId, Blank, BranchPlan, FallbackId;
    assert plan[2] == Join("mentions", EntityId("correlation", Correlation(e.msg)), EntityId("topic", e.msg.topic));
    assert plan[2] in plan;
  }
}
