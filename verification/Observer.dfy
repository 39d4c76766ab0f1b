/** The observer as one object: the snapshot and the graph in one database, changed by two
    transactions per accepted record and one per rejected record.

    The object's history is at every moment a run of the ingest state machine and a run of the
    graph state machine, so what is proved of all runs holds of the object. */
module Observer {
  import opened Ordering
  import opened Lists
  import opened Text
  import opened Records
  import opened Ingest
  import opened GraphLogs
  import opened GraphWriter
  import I = IngestRuns
  import C = GraphCommits
  import H = GraphHistory
  import R = Redelivery
  import W = GraphWedge

  // ---------- histories ----------

  datatype IngestLog = IngestLog(states: seq<I.State>, events: seq<I.Event>, committed: seq<bool>)

  ghost predicate IngestReached(limit: int, log: IngestLog, s: I.State) {
    I.IsRun(limit, log.states, log.events, log.committed) && log.states[|log.states| - 1] == s
  }

  ghost predicate GraphReached(log: GraphLog, s: H.State) {
    Reached(log) && Now(log) == s
  }

  function IngestMore(log: IngestLog, e: I.Event, committed: bool, s: I.State): IngestLog {
    IngestLog(log.states + [s], log.events + [e], log.committed + [committed])
  }

  /** The records whose update went through, in order, repeats included. */
  ghost function Taken(log: IngestLog): seq<R.Delivery> {
    if |log.events| == |log.committed| then R.Deliveries(log.events, log.committed) else []
  }

  lemma TakenMore(limit: int, log: IngestLog, now: I.State, e: I.Event, committed: bool, s: I.State)
    requires IngestReached(limit, log, now)
    ensures Taken(IngestMore(log, e, committed, s)) ==
            Taken(log) + if committed && e.Accept? then [R.Delivery(e.msg, e.payload)] else []
  {
    hide I.Commits;
    var more := IngestMore(log, e, committed, s);
    assert more.events[..|log.events|] == log.events && more.committed[..|log.events|] == log.committed;
  }

  lemma IngestGoesOn(limit: int, log: IngestLog, s: I.State, e: I.Event, committed: bool, s': I.State)
    requires IngestReached(limit, log, s)
    requires if committed then I.Commits(limit, s, e, s') else s' == s
    ensures IngestReached(limit, IngestMore(log, e, committed, s'), s')
  {
    hide I.Commits;
    var more := IngestMore(log, e, committed, s');
    assert forall i :: 0 <= i < |log.states| ==> more.states[i] == log.states[i];
    assert more.states[|log.events|] == s && more.states[|log.events| + 1] == s';
  }

  lemma IngestIsSound(limit: int, log: IngestLog, s: I.State)
    requires IngestReached(limit, log, s)
    ensures I.Sound(s.doc) && I.Balanced(s.doc)
  {
    hide I.Sound, I.Balanced;
    I.AccountsBalance(limit, log.states, log.events, log.committed, |log.states| - 1);
  }

  lemma GraphIsSound(log: GraphLog, s: H.State)
    requires GraphReached(log, s)
    ensures H.Sound(s.graph, s.messages) && UniqueKeys(s.graph.edges)
  {
    ReachedShape(log);
  }

  // ---------- what one record does to the graph's history ----------

  /** What the surroundings decide about one record: whether the disk takes each transaction, whether
      the re-read works and which participant lists it loses, whether a reject is mirrored. */
  datatype World = World(
    updateOk: bool, graphOk: bool, rereadOk: bool, lostFlows: set<string>, lostTraces: set<string>,
    mirrored: bool, noteOk: bool)

  function WriteOf(d: Decoded): H.Event
    requires d.Accepted?
  {
    H.Write(d.branch, d.msg, d.payload)
  }

  /** The latest transaction went through. */
  function Went(log: GraphLog): bool {
    log.committed != [] && log.committed[|log.committed| - 1]
  }

  /** A decoded record is tried as an update, which makes `kept` the retained ids, and then as a graph write. */
  ghost function OfferLog(log: GraphLog, kept: set<string>, d: Decoded, w: World): GraphLog {
    if d.Rejected? then log
    else
      var updated := Try(log, H.Replace(kept), w.updateOk);
      if Went(updated) then Try(updated, WriteOf(d), w.graphOk) else updated
  }

  /** The reason for which a record is refused, if it is. */
  ghost function AnswerOf(log: GraphLog, kept: set<string>, d: Decoded, w: World): Option<string> {
    if d.Rejected? then Some(d.reason)
    else if !Went(Try(log, H.Replace(kept), w.updateOk)) then Some("store_update_failed")
    else if Went(OfferLog(log, kept, d, w)) && w.rereadOk then None
    else Some("graph_write_failed")
  }

  ghost function NoteLog(log: GraphLog, w: World): GraphLog {
    Try(log, H.Replace(Now(log).messages), w.noteOk)
  }

  /** A record, and the note if it is refused. */
  ghost function RecordLog(log: GraphLog, kept: set<string>, d: Decoded, w: World): GraphLog {
    var offered := OfferLog(log, kept, d, w);
    if AnswerOf(log, kept, d, w).None? then offered else NoteLog(offered, w)
  }

  /** A batch of records, one after the other. */
  ghost function StreamLog(
      log: GraphLog, records: seq<Record>, kept: seq<set<string>>, worlds: seq<World>, group: string): GraphLog
    requires |kept| == |records| == |worlds|
  {
    if records == [] then log
    else
      var n := |records| - 1;
      RecordLog(StreamLog(log, records[..n], kept[..n], worlds[..n], group),
                kept[n], Decode(records[n], group), worlds[n])
  }

  /** The records of a batch whose update goes through. */
  ghost function TakenOf(
      log: GraphLog, records: seq<Record>, kept: seq<set<string>>, worlds: seq<World>, group: string): seq<R.Delivery>
    requires |kept| == |records| == |worlds|
  {
    if records == [] then []
    else
      var n := |records| - 1;
      var before := Now(StreamLog(log, records[..n], kept[..n], worlds[..n], group)).graph;
      TakenOf(log, records[..n], kept[..n], worlds[..n], group)
      + RecordTaken(Decode(records[n], group), worlds[n].updateOk && !H.Twins(before))
  }

  /** What may be retained once a record is accepted: all ids and the new one, or as many as the limit allows. */
  ghost predicate Keeps(limit: int, ids: set<string>, d: Decoded, kept: set<string>) {
    d.Accepted? ==>
      if d.msg.id in ids then kept == ids
      else
        && kept <= ids + {d.msg.id}
        && |kept| == if limit > 0 && |ids| + 1 > limit then limit else |ids| + 1
  }

  lemma KeepsIds(limit: int, doc: Snapshot, d: Decoded, next: Snapshot)
    requires I.Sound(doc) && d.Accepted? && AcceptStep(limit, doc, d.msg, d.payload, next)
    ensures Keeps(limit, Ids(doc.messages, MessageId), d, Ids(next.messages, MessageId))
  {
    if d.msg.id !in Ids(doc.messages, MessageId) {
      I.AcceptedParts(limit, doc, d.msg, d.payload, next);
      I.SoundParts(doc);
      I.RetainedMessages(limit, doc.messages, d.msg, next.messages);
      hide I.Sound, AcceptStep, Retained;
      CountIds(doc.messages, MessageId);
      CountIds(next.messages, MessageId);
    }
  }

  lemma StreamMore(
      log: GraphLog, records: seq<Record>, kept: seq<set<string>>, worlds: seq<World>, group: string,
      rec: Record, k: set<string>, w: World)
    requires |kept| == |records| == |worlds|
    ensures var before := StreamLog(log, records, kept, worlds, group);
            && StreamLog(log, records + [rec], kept + [k], worlds + [w], group) ==
               RecordLog(before, k, Decode(rec, group), w)
            && TakenOf(log, records + [rec], kept + [k], worlds + [w], group) ==
               TakenOf(log, records, kept, worlds, group)
               + RecordTaken(Decode(rec, group), w.updateOk && !H.Twins(Now(before).graph))
  {
    hide RecordLog, Decode, H.Twins;
    var n := |records|;
    assert (records + [rec])[..n] == records && (kept + [k])[..n] == kept && (worlds + [w])[..n] == worlds;
  }

  lemma NoStream(log: GraphLog, group: string)
    ensures StreamLog(log, [], [], [], group) == log && TakenOf(log, [], [], [], group) == []
  {
  }

  /** What trying an update comes to. */
  lemma TryReplace(log: GraphLog, messages: set<string>, diskOk: bool)
    ensures var e, tried := H.Replace(messages), Try(log, H.Replace(messages), diskOk);
            && Went(tried) == (diskOk && !H.Twins(Now(log).graph))
            && Now(tried) == if Went(tried) then H.State(H.Detached(Now(log).graph), messages) else Now(log)
  {
    hide H.Twins, H.Detached;
    W.UpdateGoes(Now(log), messages);
    hide W.CanCommit;
  }

  lemma TryWrite(log: GraphLog, branch: string, msg: Message, payload: Payload, diskOk: bool)
    requires msg.timestamp != "" && msg.id != ""
    ensures var e := H.Write(branch, msg, payload);
            var tried := Try(log, e, diskOk);
            var g := PerformAll(Now(log).graph, Now(log).messages, branch, msg, Plan(branch, msg, payload));
            && Went(tried) == (diskOk && g.Some?)
            && Now(tried) == if Went(tried) then Now(log).(graph := g.value) else Now(log)
  {
    hide PerformAll, Plan;
    C.WriteIsPlan(Now(log), H.Write(branch, msg, payload));
    hide W.CanCommit;
  }

  // ---------- the object ----------

  class Observer {
    const limit: int
    const group: string
    const graph: GraphStore
    var doc: Snapshot
    var sessions: seq<Session>
    var replay: ReplayHealth
    ghost var accepted: map<string, string>
    ghost var ingestLog: IngestLog
    ghost var graphLog: GraphLog

    ghost function IngestState(): I.State
      reads this
    {
      I.State(doc, accepted)
    }

    ghost function GraphState(): H.State
      reads this, graph
    {
      H.State(graph.View(), Ids(doc.messages, MessageId))
    }

    ghost predicate Valid()
      reads this, graph
    {
      && IngestReached(limit, ingestLog, IngestState()) && GraphReached(graphLog, GraphState())
      && DistinctIds(sessions, SessionId)
    }

    constructor (limit: int, group: string)
      ensures Valid() && doc == EMPTY && sessions == [] && this.limit == limit && this.group == group
      ensures fresh(graph) && Taken(ingestLog) == [] && graphLog == NO_LOG
    {
      this.limit, this.group := limit, group;
      graph := new GraphStore();
      doc, accepted := EMPTY, map[];
      sessions, replay := [], ReplayHealth("", 0, "", "", 0);
      ingestLog := IngestLog([I.START], [], []);
      graphLog := NO_LOG;
    }

    /** Replaces all snapshot rows in one transaction.  Deleting the message rows clears every
        reference to them, which the unique index on edges may refuse; the primary keys of the
        snapshot tables cannot, as the snapshot is sound. */
    method Update(next: Snapshot, diskOk: bool) returns (ok: bool)
      requires I.Sound(next)
      modifies this`doc, graph`edges
      ensures ok <==> diskOk && !H.Twins(old(graph.View()))
      ensures ok ==> doc == next && graph.View() == H.Detached(old(graph.View()))
      ensures !ok ==> doc == old(doc) && graph.View() == old(graph.View())
    {
      var cleared := map i | i in graph.edges :: graph.edges[i].(evidence := None);
      assert cleared == H.Detached(graph.View()).edges by {
        assert forall i :: i in graph.edges ==> cleared[i] == H.Detach(graph.edges[i]);
      }
      var refused := exists i, j :: i in cleared && j in cleared && i != j && KeyOf(cleared[i]) == KeyOf(cleared[j]);
      if refused || !diskOk {
        return false;
      }
      graph.edges := cleared;
      doc := next;
      return true;
    }

    /** Reads the snapshot back from its tables. */
    method Reload(lostFlows: set<string>, lostTraces: set<string>)
      modifies this`doc, this`sessions
      ensures I.ReloadStep(old(doc), lostFlows, lostTraces, doc)
      ensures Ids(doc.messages, MessageId) == Ids(old(doc).messages, MessageId)
      ensures forall i, j :: 0 <= i < j < |doc.messages| ==> !Less(doc.messages[i].timestamp, doc.messages[j].timestamp)
      ensures forall i, j :: 0 <= i < j < |doc.flows| ==> !Less(doc.flows[i].lastSeen, doc.flows[j].lastSeen)
      ensures forall i, j :: 0 <= i < j < |doc.traces| ==> !Less(doc.traces[i].startedAt, doc.traces[j].startedAt)
      ensures forall i, j :: 0 <= i < j < |doc.tasks| ==> !Less(doc.tasks[i].lastSeen, doc.tasks[j].lastSeen)
      ensures Rearranged(sessions, old(sessions))
      ensures forall i, j :: 0 <= i < j < |sessions| ==> !Less(sessions[i].startedAt, sessions[j].startedAt)
    {
      SortOrders();
      SessionOrder();
      hide I.ReadFlow, I.ReadTrace, StrictWeak, InOrder, Less;
      var messages := SortSlice(doc.messages, Newer);
      var flows := SortSlice(I.ReadFlows(doc.flows, lostFlows), LaterFlow);
      var traces := SortSlice(I.ReadTraces(doc.traces, lostTraces), LaterTrace);
      var tasks := SortSlice(doc.tasks, LaterTask);
      SameMembers(doc.messages, messages);
      NewestFirst(messages);
      InFlowOrder(flows);
      InTraceOrder(traces);
      InTaskOrder(tasks);
      doc := Snapshot(messages, flows, traces, tasks, doc.health);
      sessions := SortSlice(sessions, LaterSession);
      InSessionOrder(sessions);
    }

    /** The two transactions of a record that decodes.  `mid` is the snapshot between them. */
    method AcceptMessage(branch: string, msg: Message, payload: Payload, w: World)
      returns (reason: string, ok: bool, ghost mid: Snapshot)
      requires Valid() && msg.timestamp != "" && msg.id != ""
      modifies this, graph
      ensures Valid() && Rearranged(sessions, old(sessions)) && replay == old(replay)
      ensures Taken(ingestLog) ==
              Taken(old(ingestLog)) +
              if w.updateOk && !H.Twins(old(graph.View())) then [R.Delivery(msg, payload)] else []
      ensures AcceptStep(limit, old(doc), msg, payload, mid)
      ensures var g0 := old(graph.View());
              !(w.updateOk && !H.Twins(g0)) ==>
                && reason == "store_update_failed" && !ok && doc == old(doc) && graph.View() == g0
                && ingestLog.events == old(ingestLog.events) + [I.Accept(msg, payload)]
      ensures var g0 := old(graph.View());
              w.updateOk && !H.Twins(g0) ==>
                var g := PerformAll(H.Detached(g0), Ids(mid.messages, MessageId),
                                    branch, msg, Plan(branch, msg, payload));
                var wrote := w.graphOk && g.Some?;
                && graph.View() == (if wrote then g.value else H.Detached(g0))
                && ok == (wrote && w.rereadOk)
                && reason == (if ok then "" else "graph_write_failed")
                && (if ok then I.ReloadStep(mid, w.lostFlows, w.lostTraces, doc) else doc == mid)
                && ingestLog.events ==
                   old(ingestLog.events) + [I.Accept(msg, payload), I.Reload(w.lostFlows, w.lostTraces)]
      ensures var kept, d := Ids(mid.messages, MessageId), Accepted(branch, msg, payload);
              && graphLog == OfferLog(old(graphLog), kept, d, w)
              && AnswerOf(old(graphLog), kept, d, w) == if ok then None else Some(reason)
    {
      hide Reached, IngestReached, DistinctIds, Ids, Try, Went, PerformAll, Plan, H.Twins, H.Detached, AcceptStep,
           I.ReloadStep, I.RejectStep, I.Commits, I.Sound, Taken, OfferLog, AnswerOf, NoteLog, Rearranged,
           InOrder, UniqueKeys;
      ghost var s, log := IngestState(), graphLog;
      var next := AcceptInto(limit, doc, msg, payload);
      mid := next;
      ghost var known := msg.id in Ids(doc.messages, MessageId);
      ghost var s1 := I.State(next, if known then accepted else accepted[msg.id := msg.timestamp]);
      ghost var e, kept := I.Accept(msg, payload), Ids(next.messages, MessageId);
      StartOfLog();
      AcceptCommits(limit, s, msg, payload, s1);
      IngestGoesOn(limit, ingestLog, s, e, true, s1);
      IngestIsSound(limit, IngestMore(ingestLog, e, true, s1), s1);
      TryReplace(log, kept, w.updateOk);
      TryIsReached(log, H.Replace(kept), w.updateOk);
      OfferSteps(log, kept, Accepted(branch, msg, payload), w);
      var updated := Update(next, w.updateOk);
      TakenMore(limit, ingestLog, s, e, updated, if updated then s1 else s);
      ingestLog := IngestMore(ingestLog, e, updated, if updated then s1 else s);
      graphLog := Try(log, H.Replace(kept), w.updateOk);
      if !updated {
        IngestGoesOn(limit, old(ingestLog), s, e, false, s);
        SameRows(sessions);
        AtHand();
        return "store_update_failed", false, mid;
      }
      accepted := s1.accepted;
      AtHand();
      ghost var events := ingestLog.events;
      reason, ok := AppendGraph(branch, msg, payload, w);
      assert events + [I.Reload(w.lostFlows, w.lostTraces)] ==
             old(ingestLog.events) + [e, I.Reload(w.lostFlows, w.lostTraces)];
    }

    /** The second transaction, and the re-read after it. */
    method AppendGraph(branch: string, msg: Message, payload: Payload, w: World) returns (reason: string, ok: bool)
      requires Valid() && msg.timestamp != "" && msg.id != ""
      modifies this`doc, this`sessions, this`ingestLog, this`graphLog, graph
      ensures Valid() && Taken(ingestLog) == Taken(old(ingestLog)) && Rearranged(sessions, old(sessions))
      ensures var messages := Ids(old(doc).messages, MessageId);
              var g := PerformAll(old(graph.View()), messages, branch, msg, Plan(branch, msg, payload));
              var wrote := w.graphOk && g.Some?;
              && graph.View() == (if wrote then g.value else old(graph.View()))
              && ok == (wrote && w.rereadOk)
              && reason == (if ok then "" else "graph_write_failed")
              && (if ok then I.ReloadStep(old(doc), w.lostFlows, w.lostTraces, doc) else doc == old(doc))
              && ingestLog.events == old(ingestLog.events) + [I.Reload(w.lostFlows, w.lostTraces)]
              && graphLog == Try(old(graphLog), H.Write(branch, msg, payload), w.graphOk) && Went(graphLog) == wrote
    {
      hide Reached, IngestReached, DistinctIds, Ids, Try, Went, PerformAll, Plan, H.Twins, H.Detached, AcceptStep,
           I.ReloadStep, I.RejectStep, I.Commits, I.Sound, Taken, OfferLog, AnswerOf, NoteLog, Rearranged,
           InOrder, UniqueKeys;
      ghost var s, log := IngestState(), graphLog;
      ghost var e, read := H.Write(branch, msg, payload), I.Reload(w.lostFlows, w.lostTraces);
      StartOfLog();
      GraphIsSound(log, GraphState());
      TryWrite(log, branch, msg, payload, w.graphOk);
      TryIsReached(log, e, w.graphOk);
      var wrote := false;
      if w.graphOk {
        wrote := graph.AppendGraph(branch, msg, payload, MessageIds());
      }
      graphLog := Try(log, e, w.graphOk);
      if !wrote || !w.rereadOk {
        TakenMore(limit, ingestLog, s, read, false, s);
        ingestLog := IngestMore(ingestLog, read, false, s);
        IngestGoesOn(limit, old(ingestLog), s, read, false, s);
        SameRows(sessions);
        AtHand();
        return "graph_write_failed", false;
      }
      Reload(w.lostFlows, w.lostTraces);
      ReloadCommits(limit, s, w.lostFlows, w.lostTraces, IngestState());
      TakenMore(limit, ingestLog, s, read, true, IngestState());
      ingestLog := IngestMore(ingestLog, read, true, IngestState());
      IngestGoesOn(limit, old(ingestLog), s, read, true, IngestState());
      SameSessions(old(sessions), sessions);
      AtHand();
      return "", true;
    }

    function MessageIds(): (ids: set<string>)
      reads this
      ensures ids == Ids(doc.messages, MessageId)
    {
      set m | m in doc.messages :: m.id
    }

    /** One record: refused undecoded without a trace, or accepted by two transactions.  `kept` are the
        ids retained once it is accepted. */
    method HandleRecord(rec: Record, w: World) returns (reason: string, ok: bool, ghost kept: set<string>)
      requires Valid() && rec.timestamp != ""
      modifies this, graph
      ensures Valid() && Rearranged(sessions, old(sessions)) && replay == old(replay)
      ensures var d := Decode(rec, group);
              && Keeps(limit, Now(old(graphLog)).messages, d, kept)
              && graphLog == OfferLog(old(graphLog), kept, d, w)
              && AnswerOf(old(graphLog), kept, d, w) == if ok then None else Some(reason)
      ensures var d := Decode(rec, group);
              && (d.Rejected? ==> doc == old(doc) && graph.View() == old(graph.View()))
              && (d.Accepted? && H.Twins(old(graph.View())) ==>
                    reason == "store_update_failed" && !ok && doc == old(doc) && graph.View() == old(graph.View()))
              && ingestLog.events ==
                 old(ingestLog.events) + RecordEvents(d, w.updateOk && !H.Twins(old(graph.View())), w)
              && Taken(ingestLog) ==
                 Taken(old(ingestLog)) + RecordTaken(d, w.updateOk && !H.Twins(old(graph.View())))
    {
      hide *;
      var d := Decode(rec, group);
      ghost var events, taken, updated := ingestLog.events, Taken(ingestLog), w.updateOk && !H.Twins(graph.View());
      kept := {};
      StartOfLog();
      RecordMeans(d, updated, w);
      if d.Rejected? {
        SameRows(sessions);
        RefusedUndecoded(limit, graphLog, Now(graphLog).messages, d, kept, w);
        assert events + [] == events && taken + [] == taken;
        return d.reason, false, kept;
      }
      DecodeKeepsStamp(rec, group);
      IngestIsSound(limit, ingestLog, IngestState());
      ghost var mid;
      ghost var before := doc;
      reason, ok, mid := AcceptMessage(d.branch, d.msg, d.payload, w);
      kept := Ids(mid.messages, MessageId);
      KeepsIds(limit, before, d, mid);
      assert d == Accepted(d.branch, d.msg, d.payload);
    }

    /** The live loop's note of a refused record; that this update may fail is ignored. */
    method NoteReject(reason: string, w: World)
      requires Valid()
      modifies this, graph
      ensures Valid() && Taken(ingestLog) == Taken(old(ingestLog)) && graphLog == NoteLog(old(graphLog), w)
      ensures ingestLog.events == old(ingestLog.events) + [I.Reject(reason, w.mirrored)]
      ensures sessions == old(sessions) && replay == old(replay)
      ensures if w.noteOk && !H.Twins(old(graph.View()))
              then I.RejectStep(old(doc), reason, w.mirrored, doc)
              else doc == old(doc) && graph.View() == old(graph.View())
    {
      ghost var s, log := IngestState(), graphLog;
      var h := doc.health;
      h := h.(rejected := h.rejected + 1, rejectedByReason := h.rejectedByReason + multiset{reason});
      if w.mirrored {
        h := h.(mirrored := h.mirrored + 1);
      } else {
        h := h.(mirrorFailed := h.mirrorFailed + 1);
      }
      var next := doc.(health := h);
      assert I.RejectStep(doc, reason, w.mirrored, next);
      hide Reached, IngestReached, DistinctIds, Ids, Try, Went, PerformAll, Plan, H.Twins, H.Detached, AcceptStep,
           I.ReloadStep, I.RejectStep, I.Commits, I.Sound, Taken, OfferLog, AnswerOf, NoteLog, Rearranged,
           InOrder, UniqueKeys;
      StartOfLog();
      IngestIsSound(limit, ingestLog, s);
      SameTables(doc, next);
      ghost var e, r := I.Reject(reason, w.mirrored), H.Replace(Now(log).messages);
      TryReplace(log, Now(log).messages, w.noteOk);
      TryIsReached(log, r, w.noteOk);
      NoteMeans(log, w);
      var noted := Update(next, w.noteOk);
      ghost var s' := I.State(doc, accepted);
      RejectCommits(limit, s, reason, w.mirrored, s');
      TakenMore(limit, ingestLog, s, e, noted, s');
      ingestLog := IngestMore(ingestLog, e, noted, s');
      IngestGoesOn(limit, old(ingestLog), s, e, noted, s');
      graphLog := NoteLog(log, w);
      AtHand();
    }

    /** An update of the replay sessions and of the health fields about replays. */
    method NoteReplays(sessions: seq<Session>, replay: ReplayHealth, diskOk: bool) returns (noted: bool)
      requires Valid() && DistinctIds(sessions, SessionId)
      modifies this, graph
      ensures Valid() && doc == old(doc) && ingestLog.events == old(ingestLog.events) + [I.Heartbeat]
      ensures noted <==> diskOk && !H.Twins(old(graph.View()))
      ensures this.sessions == if noted then sessions else old(this.sessions)
      ensures this.replay == if noted then replay else old(this.replay)
      ensures graph.View() == if noted then H.Detached(old(graph.View())) else old(graph.View())
    {
      hide Reached, IngestReached, DistinctIds, Ids, Try, Went, PerformAll, Plan, H.Twins, H.Detached, AcceptStep,
           I.ReloadStep, I.RejectStep, I.Commits, I.Sound, Taken, OfferLog, AnswerOf, NoteLog, Rearranged,
           InOrder, UniqueKeys;
      ghost var s, log := IngestState(), graphLog;
      StartOfLog();
      IngestIsSound(limit, ingestLog, s);
      ghost var r := H.Replace(Now(log).messages);
      TryReplace(log, Now(log).messages, diskOk);
      TryIsReached(log, r, diskOk);
      noted := Update(doc, diskOk);
      if noted {
        this.sessions, this.replay := sessions, replay;
      }
      BeatCommits(limit, s);
      ingestLog := IngestMore(ingestLog, I.Heartbeat, noted, s);
      IngestGoesOn(limit, old(ingestLog), s, I.Heartbeat, noted, s);
      graphLog := Try(log, r, diskOk);
      AtHand();
    }

    /** One batch of the live loop: every record is handled once, in order, and has its answer, and every
        refusal is noted once, with the reason.  What becomes of each record, and with it the whole history
        of the graph, is determined by the records, the surroundings, and which ids the cut retains.  Once
        two edges are twins the loop goes through every further record without keeping anything of it,
        not even the refusals. */
    method Consume(records: seq<Record>, worlds: seq<World>)
      returns (answers: seq<Option<string>>, ghost kept: seq<set<string>>)
      requires Valid() && |worlds| == |records| && forall r :: r in records ==> r.timestamp != ""
      modifies this, graph
      ensures Valid() && |answers| == |kept| == |records|
      ensures Rearranged(sessions, old(sessions)) && replay == old(replay)
      ensures graphLog == StreamLog(old(graphLog), records, kept, worlds, group)
      ensures Taken(ingestLog) == Taken(old(ingestLog)) + TakenOf(old(graphLog), records, kept, worlds, group)
      ensures forall i :: 0 <= i < |records| ==>
                Handled(limit, old(graphLog), records, kept, worlds, group, i, answers[i])
      ensures Noted(ingestLog.events) == Noted(old(ingestLog.events)) + Refusals(answers)
      ensures Offered(ingestLog.events) == Offered(old(ingestLog.events)) + Decodable(records, group)
      ensures H.Twins(old(graph.View())) ==>
                doc == old(doc) && graph.View() == old(graph.View()) && forall a :: a in answers ==> a.Some?
    {
      hide *;
      answers, kept := [], [];
      SameRows(sessions);
      NothingYet(group);
      NoStream(graphLog, group);
      assert records[..0] == [] && worlds[..0] == [];
      assert Taken(ingestLog) + [] == Taken(ingestLog);
      for i := 0 to |records|
        invariant Valid() && |answers| == |kept| == i
        invariant Rearranged(sessions, old(sessions)) && replay == old(replay)
        invariant graphLog == StreamLog(old(graphLog), records[..i], kept, worlds[..i], group)
        invariant Taken(ingestLog) ==
                  Taken(old(ingestLog)) + TakenOf(old(graphLog), records[..i], kept, worlds[..i], group)
        invariant forall k :: 0 <= k < i ==>
                    Handled(limit, old(graphLog), records[..i], kept, worlds[..i], group, k, answers[k])
        invariant Noted(ingestLog.events) == Noted(old(ingestLog.events)) + Refusals(answers)
        invariant Offered(ingestLog.events) == Offered(old(ingestLog.events)) + Decodable(records[..i], group)
        invariant H.Twins(old(graph.View())) ==>
                    doc == old(doc) && graph.View() == old(graph.View()) && forall a :: a in answers ==> a.Some?
      {
        assert records[i] in records && worlds[i] in worlds;
        assert records[..i + 1] == records[..i] + [records[i]] && worlds[..i + 1] == worlds[..i] + [worlds[i]];
        DecodableSplits(records[..i], records[i], group);
        RefusalsSplit(answers);
        StartOfLog();
        ghost var rows, answered, log := sessions, answers, graphLog;
        ghost var updated := worlds[i].updateOk && !H.Twins(graph.View());
        ghost var k;
        var answer;
        answer, k := HandleAndNote(records[i], worlds[i]);
        StreamMore(old(graphLog), records[..i], kept, worlds[..i], group, records[i], k, worlds[i]);
        HandledMore(limit, old(graphLog), records[..i], kept, worlds[..i], group, records[i], k,
                    worlds[i], answers, answer);
        SameRowsOn(old(sessions), rows, sessions);
        Regroup(Taken(old(ingestLog)), TakenOf(old(graphLog), records[..i], kept, worlds[..i], group),
                RecordTaken(Decode(records[i], group), updated));
        answers := answers + [answer];
        kept := kept + [k];
        assert forall j :: 0 <= j <= i ==> answers[j] == (answered + [answer])[j];
      }
      assert records[..|records|] == records && worlds[..|records|] == worlds;
    }

    method HandleAndNote(rec: Record, w: World) returns (answer: Option<string>, ghost kept: set<string>)
      requires Valid() && rec.timestamp != ""
      modifies this, graph
      ensures Valid() && Rearranged(sessions, old(sessions)) && replay == old(replay)
      ensures var d := Decode(rec, group);
              && Keeps(limit, Now(old(graphLog)).messages, d, kept)
              && answer == AnswerOf(old(graphLog), kept, d, w) && graphLog == RecordLog(old(graphLog), kept, d, w)
      ensures H.Twins(old(graph.View())) ==>
                doc == old(doc) && graph.View() == old(graph.View()) && answer.Some?
      ensures Noted(ingestLog.events) == Noted(old(ingestLog.events)) + Refusals([answer])
      ensures Offered(ingestLog.events) ==
              Offered(old(ingestLog.events)) + var d := Decode(rec, group); if d.Accepted? then [d.msg] else []
      ensures Taken(ingestLog) ==
              Taken(old(ingestLog)) + RecordTaken(Decode(rec, group), w.updateOk && !H.Twins(old(graph.View())))
    {
      hide *;
      TwinsAnswer(graphLog, Decode(rec, group), w);
      StartOfLog();
      ghost var before, updated := ingestLog.events, w.updateOk && !H.Twins(graph.View());
      var reason, ok;
      reason, ok, kept := HandleRecord(rec, w);
      EventsOfRecord(before, Decode(rec, group), updated, w);
      RecordLogIs(old(graphLog), kept, Decode(rec, group), w);
      OneRefusal(reason);
      if ok {
        assert Noted(before) + [] == Noted(before);
        return None, kept;
      }
      before := ingestLog.events;
      NoteReject(reason, w);
      EventOfNote(before, reason, w.mirrored);
      return Some(reason), kept;
    }

    lemma StartOfLog()
      requires Valid()
      ensures IngestReached(limit, ingestLog, IngestState()) && GraphReached(graphLog, GraphState())
      ensures Reached(graphLog) && Now(graphLog) == GraphState() && DistinctIds(sessions, SessionId)
      ensures IngestState() == I.State(doc, accepted)
      ensures GraphState().graph == graph.View() && GraphState().messages == Ids(doc.messages, MessageId)
    {
      hide Reached, IngestReached, DistinctIds, Ids;
    }

    lemma AtHand()
      requires IngestReached(limit, ingestLog, I.State(doc, accepted)) && DistinctIds(sessions, SessionId)
      requires Reached(graphLog) && Now(graphLog) == H.State(graph.View(), Ids(doc.messages, MessageId))
      ensures Valid()
    {
      hide Reached, IngestReached, DistinctIds, Ids;
    }
  }

  function SessionId(s: Session): string { s.id }

  predicate LaterSession(a: Session, b: Session) { Less(b.startedAt, a.startedAt) }

  lemma SessionOrder()
    ensures StrictWeak(LaterSession)
  {
    LessIsOrder();
  }

  lemma InSessionOrder(rows: seq<Session>)
    requires InOrder(rows, LaterSession)
    ensures forall i, j :: 0 <= i < j < |rows| ==> !Less(rows[i].startedAt, rows[j].startedAt)
  {
    forall i, j | 0 <= i < j < |rows| ensures !Less(rows[i].startedAt, rows[j].startedAt) {
      assert !LaterSession(rows[j], rows[i]);
    }
  }

  lemma SameRows(rows: seq<Session>)
    ensures Rearranged(rows, rows)
  {
  }

  lemma SameRowsOn(a: seq<Session>, b: seq<Session>, c: seq<Session>)
    requires Rearranged(b, a) && Rearranged(c, b)
    ensures Rearranged(c, a)
  {
  }

  lemma SameSessions(rows: seq<Session>, rows': seq<Session>)
    requires DistinctIds(rows, SessionId) && Rearranged(rows', rows)
    ensures DistinctIds(rows', SessionId)
  {
    RearrangedIds(rows, rows', SessionId);
  }

  lemma ReloadCommits(limit: int, s: I.State, lostFlows: set<string>, lostTraces: set<string>, s': I.State)
    requires I.ReloadStep(s.doc, lostFlows, lostTraces, s'.doc) && s'.accepted == s.accepted
    ensures I.Commits(limit, s, I.Reload(lostFlows, lostTraces), s')
  {
    hide I.ReloadStep;
  }

  lemma RejectCommits(limit: int, s: I.State, reason: string, mirrored: bool, s': I.State)
    ensures I.RejectStep(s.doc, reason, mirrored, s'.doc) && s'.accepted == s.accepted ==>
              I.Commits(limit, s, I.Reject(reason, mirrored), s')
  {
    hide I.RejectStep;
  }

  lemma BeatCommits(limit: int, s: I.State)
    ensures I.Commits(limit, s, I.Heartbeat, s)
  {
  }

  lemma OfferSteps(log: GraphLog, kept: set<string>, d: Decoded, w: World)
    requires d.Accepted?
    ensures var updated := Try(log, H.Replace(kept), w.updateOk);
            && OfferLog(log, kept, d, w) ==
               (if Went(updated) then Try(updated, H.Write(d.branch, d.msg, d.payload), w.graphOk) else updated)
            && AnswerOf(log, kept, d, w) ==
               if !Went(updated) then Some("store_update_failed")
               else if Went(OfferLog(log, kept, d, w)) && w.rereadOk then None else Some("graph_write_failed")
  {
    hide Try, Went;
  }

  lemma NoteMeans(log: GraphLog, w: World)
    ensures NoteLog(log, w) == Try(log, H.Replace(Now(log).messages), w.noteOk)
  {
  }

  lemma TwinsAnswer(log: GraphLog, d: Decoded, w: World)
    ensures H.Twins(Now(log).graph) ==> forall kept :: AnswerOf(log, kept, d, w).Some?
  {
    hide H.Twins, Try, Went, OfferLog;
    forall kept ensures H.Twins(Now(log).graph) ==> AnswerOf(log, kept, d, w).Some? {
      TryReplace(log, kept, w.updateOk);
    }
  }

  lemma RecordLogIs(log: GraphLog, kept: set<string>, d: Decoded, w: World)
    ensures var offered := OfferLog(log, kept, d, w);
            RecordLog(log, kept, d, w) == if AnswerOf(log, kept, d, w).None? then offered else NoteLog(offered, w)
  {
    hide OfferLog, NoteLog, AnswerOf;
  }

  lemma RefusedUndecoded(limit: int, log: GraphLog, ids: set<string>, d: Decoded, kept: set<string>, w: World)
    requires d.Rejected?
    ensures Keeps(limit, ids, d, kept) && OfferLog(log, kept, d, w) == log
            && AnswerOf(log, kept, d, w) == Some(d.reason)
  {
  }

  lemma RecordMeans(d: Decoded, updated: bool, w: World)
    ensures RecordTaken(d, updated) == if d.Accepted? && updated then [R.Delivery(d.msg, d.payload)] else []
    ensures RecordEvents(d, updated, w) ==
            if d.Rejected? then []
            else if updated then [I.Accept(d.msg, d.payload), I.Reload(w.lostFlows, w.lostTraces)]
            else [I.Accept(d.msg, d.payload)]
  {
  }

  // ---------- the records of a batch ----------

  /** Record `i` met the history that the records before it had made, and had this answer. */
  ghost predicate Handled(
      limit: int, log: GraphLog, records: seq<Record>, kept: seq<set<string>>, worlds: seq<World>, group: string,
      i: nat, answer: Option<string>)
  {
    && i < |records| == |kept| == |worlds|
    && var before, d := StreamLog(log, records[..i], kept[..i], worlds[..i], group), Decode(records[i], group);
       Keeps(limit, Now(before).messages, d, kept[i]) && answer == AnswerOf(before, kept[i], d, worlds[i])
  }

  lemma HandledMore(
      limit: int, log: GraphLog, records: seq<Record>, kept: seq<set<string>>, worlds: seq<World>, group: string,
      rec: Record, k: set<string>, w: World, answers: seq<Option<string>>, answer: Option<string>)
    requires |records| == |kept| == |worlds| == |answers|
    requires forall i :: 0 <= i < |answers| ==> Handled(limit, log, records, kept, worlds, group, i, answers[i])
    requires var before, d := StreamLog(log, records, kept, worlds, group), Decode(rec, group);
             Keeps(limit, Now(before).messages, d, k) && answer == AnswerOf(before, k, d, w)
    ensures forall i :: 0 <= i <= |answers| ==>
              Handled(limit, log, records + [rec], kept + [k], worlds + [w], group, i, (answers + [answer])[i])
  {
    hide StreamLog, Keeps, AnswerOf, Decode;
    var n := |records|;
    forall i | 0 <= i <= n
      ensures Handled(limit, log, records + [rec], kept + [k], worlds + [w], group, i, (answers + [answer])[i])
    {
      assert (records + [rec])[..i] == records[..i] && (kept + [k])[..i] == kept[..i]
             && (worlds + [w])[..i] == worlds[..i];
      assert i < n ==> Handled(limit, log, records, kept, worlds, group, i, answers[i]);
      assert records[..n] == records && kept[..n] == kept && worlds[..n] == worlds;
    }
  }

  // ---------- what a batch leaves in the history ----------

  function RecordEvents(d: Decoded, updated: bool, w: World): seq<I.Event> {
    if d.Rejected? then []
    else [I.Accept(d.msg, d.payload)] + if updated then [I.Reload(w.lostFlows, w.lostTraces)] else []
  }

  function RecordTaken(d: Decoded, updated: bool): seq<R.Delivery> {
    if d.Accepted? && updated then [R.Delivery(d.msg, d.payload)] else []
  }

  function DeliveriesOf(records: seq<Record>, group: string): seq<R.Delivery> {
    if records == [] then []
    else
      var d := Decode(records[|records| - 1], group);
      DeliveriesOf(records[..|records| - 1], group) + if d.Accepted? then [R.Delivery(d.msg, d.payload)] else []
  }

  lemma DeliveriesSplit(records: seq<Record>, rec: Record, group: string)
    ensures DeliveriesOf(records + [rec], group) == DeliveriesOf(records, group) + RecordTaken(Decode(rec, group), true)
  {
    hide Decode;
    assert (records + [rec])[..|records|] == records;
  }

  /** The reasons among the answers. */
  function Refusals(answers: seq<Option<string>>): seq<string> {
    if answers == [] then []
    else
      var last := answers[|answers| - 1];
      Refusals(answers[..|answers| - 1]) + if last.Some? then [last.value] else []
  }

  lemma RefusalsSplit(answers: seq<Option<string>>)
    ensures forall a :: Refusals(answers + [a]) == Refusals(answers) + Refusals([a])
  {
    forall a ensures Refusals(answers + [a]) == Refusals(answers) + Refusals([a]) {
      assert (answers + [a])[..|answers|] == answers;
      assert [a][..0] == [];
    }
  }

  lemma OneRefusal(reason: string)
    ensures Refusals([None]) == [] && Refusals([Some(reason)]) == [reason]
  {
    var one: seq<Option<string>>, none: seq<Option<string>> := [Some(reason)], [None];
    assert one[..0] == [] && none[..0] == [];
  }

  /** The reasons of the refused records that were noted. */
  function Noted(events: seq<I.Event>): seq<string> {
    if events == [] then []
    else
      var last := events[|events| - 1];
      Noted(events[..|events| - 1]) + if last.Reject? then [last.reason] else []
  }

  /** The messages that were offered to the store. */
  function Offered(events: seq<I.Event>): seq<Message> {
    if events == [] then []
    else
      var last := events[|events| - 1];
      Offered(events[..|events| - 1]) + if last.Accept? then [last.msg] else []
  }

  function Decodable(records: seq<Record>, group: string): seq<Message> {
    if records == [] then []
    else
      var d := Decode(records[|records| - 1], group);
      Decodable(records[..|records| - 1], group) + if d.Accepted? then [d.msg] else []
  }

  lemma DecodableSplits(records: seq<Record>, rec: Record, group: string)
    ensures Decodable(records + [rec], group) ==
            Decodable(records, group) + var d := Decode(rec, group); if d.Accepted? then [d.msg] else []
  {
    hide Decode;
    assert (records + [rec])[..|records|] == records;
  }

  lemma NoneDecodable(group: string)
    ensures Decodable([], group) == []
  {
  }

  lemma Regroup(a: seq<R.Delivery>, b: seq<R.Delivery>, c: seq<R.Delivery>)
    ensures (a + b) + c == a + (b + c)
  {
  }

  lemma NothingYet(group: string)
    ensures Decodable([], group) == [] && Refusals([]) == []
  {
  }

  /** The updates that carry no record, such as the report of a replay. */
  function Beats(events: seq<I.Event>): nat {
    if events == [] then 0
    else Beats(events[..|events| - 1]) + if events[|events| - 1].Heartbeat? then 1 else 0
  }

  lemma OneEvent(events: seq<I.Event>, e: I.Event)
    ensures Beats(events + [e]) == Beats(events) + if e.Heartbeat? then 1 else 0
    ensures Noted(events + [e]) == Noted(events) + if e.Reject? then [e.reason] else []
    ensures Offered(events + [e]) == Offered(events) + if e.Accept? then [e.msg] else []
  {
    assert (events + [e])[..|events|] == events;
  }

  lemma EventsOfRecord(before: seq<I.Event>, d: Decoded, updated: bool, w: World)
    ensures var events := before + RecordEvents(d, updated, w);
            && Noted(events) == Noted(before) && Beats(events) == Beats(before)
            && Offered(events) == Offered(before) + if d.Accepted? then [d.msg] else []
  {
    hide Noted, Offered, Beats;
    if d.Accepted? {
      var accept := I.Accept(d.msg, d.payload);
      var reload := I.Reload(w.lostFlows, w.lostTraces);
      OneEvent(before, accept);
      OneEvent(before + [accept], reload);
      assert before + RecordEvents(d, updated, w) ==
             if updated then before + [accept] + [reload] else before + [accept];
    } else {
      assert before + RecordEvents(d, updated, w) == before;
    }
  }

  lemma EventOfNote(before: seq<I.Event>, reason: string, mirrored: bool)
    ensures Noted(before + [I.Reject(reason, mirrored)]) == Noted(before) + [reason]
    ensures Offered(before + [I.Reject(reason, mirrored)]) == Offered(before)
  {
    OneEvent(before, I.Reject(reason, mirrored));
  }

  lemma DecodeKeepsStamp(rec: Record, group: string)
    ensures Decode(rec, group).Accepted? ==>
              Decode(rec, group).msg.timestamp == rec.timestamp && Decode(rec, group).msg.id != ""
  {
    assert |RecordId(rec)| > |rec.topic|;
    hide RecordId, FirstNonEmpty, FallbackId;
  }

  lemma SameTables(doc: Snapshot, next: Snapshot)
    requires I.Sound(doc) && next == doc.(health := next.health)
    ensures I.Sound(next)
  {
  }

  lemma AcceptCommits(limit: int, s: I.State, msg: Message, payload: Payload, s': I.State)
    requires AcceptStep(limit, s.doc, msg, payload, s'.doc)
    requires var known := msg.id in Ids(s.doc.messages, MessageId);
             s'.accepted == if known then s.accepted else s.accepted[msg.id := msg.timestamp]
    ensures I.Commits(limit, s, I.Accept(msg, payload), s')
  {
    hide AcceptStep;
  }

  lemma ReachedNow(log: GraphLog, now: H.State)
    requires GraphReached(log, now)
    ensures H.IsRun(log.states, log.events, log.committed) && log.states[|log.states| - 1] == now
    ensures |log.states| == |log.events| + 1 && |log.committed| == |log.events|
  {
    ReachedShape(log);
    hide H.IsRun;
  }

  /** MAIN RESULT.  Once the graph write of a record went through a second time, every update is
      refused from then on, whatever happens: each further record ends as a failed update, and not
      even its refusal can be noted. */
  lemma RedeliveryIsFinal(log: GraphLog, now: H.State, a: nat, c: nat)
    requires GraphReached(log, now) && a + 1 < c < |log.events| && |log.committed| == |log.events|
    requires log.events[a].Write? && log.committed[a] && log.events[c].Write? && log.committed[c]
    requires log.events[c - 1].Replace? && log.committed[c - 1]
    requires log.events[a].msg == log.events[c].msg
    ensures H.Twins(now.graph)
  {
    hide *;
    ReachedNow(log, now);
    W.RedeliveryWedges(log.states, log.events, log.committed, a, c - 1, c);
    W.WedgedForEver(log.states, log.events, log.committed, c + 1, |log.states| - 1);
  }
}
