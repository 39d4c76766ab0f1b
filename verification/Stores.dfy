/** The snapshot and the graph of one observer: the flows, traces and tasks of the one are entities of
    the other, as far as the graph writes of their records went through. */
module Stores {
  import opened Ingest
  import opened Observer
  import opened Records
  import opened Text
  import D = Decoding
  import F = GraphFields
  import G = GraphWriter
  import H = GraphHistory
  import I = IngestRuns
  import L = GraphLogs
  import O = GraphOutcome
  import R = Redelivery
  import T = Tally

  // ---------- where the writes come from ----------

  /** Every graph write is that of a record. */
  ghost predicate Decoded(events: seq<H.Event>, group: string) {
    forall e :: e in events && e.Write? ==> exists rec :: WriteOfRecord(e, rec, group)
  }

  ghost predicate WriteOfRecord(e: H.Event, rec: Record, group: string) {
    Decode(rec, group).Accepted? && e == WriteOf(Decode(rec, group))
  }

  lemma RecordIsDecoded(log: L.GraphLog, kept: set<string>, rec: Record, group: string, w: World)
    requires Decoded(log.events, group)
    ensures Decoded(RecordLog(log, kept, Decode(rec, group), w).events, group)
  {
    var d := Decode(rec, group);
    assert d.Accepted? ==> WriteOfRecord(WriteOf(d), rec, group);
    hide Decode, H.Commits;
  }

  /** The graph's history under any stream of records is one of decoded writes. */
  lemma {:induction false} StreamIsDecoded(
      log: L.GraphLog, records: seq<Record>, kept: seq<set<string>>, worlds: seq<World>, group: string)
    requires |kept| == |records| == |worlds| && Decoded(log.events, group)
    ensures Decoded(StreamLog(log, records, kept, worlds, group).events, group)
    decreases |records|
  {
    if records != [] {
      hide RecordLog, Decode, Decoded;
      var n := |records| - 1;
      StreamIsDecoded(log, records[..n], kept[..n], worlds[..n], group);
      RecordIsDecoded(StreamLog(log, records[..n], kept[..n], worlds[..n], group),
                      kept[n], records[n], group, worlds[n]);
    }
  }

  // ---------- ids tell kinds apart ----------

  /** The id of an entity is its kind and its name, if it has one. */
  lemma IdsName(e: H.Event, id: string, row: G.Entity)
    requires F.EntityAsked(e, id, row) && id != ""
    ensures row.kind in {"topic", "correlation", "agent", "task", "trace"}
    ensures id == row.kind + ":" + TrimSpace(row.canonicalId)
  {
    assert "topic" + ":" == "topic:" && "correlation" + ":" == "correlation:" && "agent" + ":" == "agent:"
           && "task" + ":" == "task:" && "trace" + ":" == "trace:";
    hide TrimSpace, Blank, F.Party;
  }

  lemma KindIs(e: H.Event, kind: string, name: string, id: string, row: G.Entity)
    requires kind in {"topic", "correlation", "agent", "task", "trace"}
    requires F.EntityAsked(e, id, row) && id == kind + ":" + TrimSpace(name)
    ensures row.kind == kind && TrimSpace(row.canonicalId) == TrimSpace(name)
  {
    hide *;
    IdsName(e, id, row);
    PlainKind(kind);
    PlainKind(row.kind);
    SplitAtFirstColon(kind, TrimSpace(name), row.kind, TrimSpace(row.canonicalId));
  }

  lemma PlainKind(kind: string)
    requires kind in {"topic", "correlation", "agent", "task", "trace"}
    ensures R.NoColon(kind)
  {
  }

  lemma SplitAtFirstColon(kind: string, a: string, kind': string, b: string)
    requires R.NoColon(kind) && R.NoColon(kind') && kind + ":" + a == kind' + ":" + b
    ensures kind == kind' && a == b
  {
    var s := kind + ":" + a;
    assert s[|kind|] == ':' && s[|kind'|] == ':';
    assert forall k :: 0 <= k < |kind| ==> s[k] == kind[k];
    assert forall k :: 0 <= k < |kind'| ==> s[k] == kind'[k];
    assert |kind| == |kind'|;
    assert kind == s[..|kind|] && kind' == s[..|kind'|];
    assert a == s[|kind| + 1..] && b == s[|kind'| + 1..];
  }

  // ---------- one record in both stores ----------

  /** The entity stands in the graph, under this id, kind and name, seen no earlier than at `at`. */
  ghost predicate Stands(g: G.Graph, id: string, kind: string, name: string, at: string) {
    && id in g.entities && g.entities[id].kind == kind && TrimSpace(g.entities[id].canonicalId) == TrimSpace(name)
    && !Less(g.entities[id].lastSeen, at)
  }

  lemma TaskIsAsked(e: H.Event, rec: Record, group: string)
    returns (row: G.Entity)
    requires WriteOfRecord(e, rec, group) && e.Write? && !Blank(e.msg.taskId)
    ensures F.EntityAsked(e, "task:" + TrimSpace(e.msg.taskId), row)
  {
    D.TaskIsNamed(rec, group);
    hide Decode, TrimSpace, Blank;
    var at, id := e.msg.timestamp, "task:" + TrimSpace(e.msg.taskId);
    if e.branch == "requests" && e.payload.request.Some? && e.payload.request.value.taskId == e.msg.taskId {
      var p := e.payload.request.value;
      row := G.Entity("task", p.taskId, if Blank(p.description) then p.taskId else p.description, at, at, map[]);
      assert F.TaskRow(p.taskId, if Blank(p.description) then p.taskId else p.description, at, map[], id, row);
    } else if e.branch == "responses" {
      var p := e.payload.response.value;
      row := G.Entity("task", p.taskId, p.taskId, at, at, map["status" := p.status]);
      assert F.TaskRow(p.taskId, p.taskId, at, map["status" := p.status], id, row);
    } else {
      var p := e.payload.status.value;
      row := G.Entity("task", p.taskId, p.taskId, at, at, map["status" := p.status, "summary" := p.summary]);
      assert F.TaskRow(p.taskId, p.taskId, at, map["status" := p.status, "summary" := p.summary], id, row);
    }
  }

  lemma TraceIsAsked(e: H.Event, rec: Record, group: string)
    returns (row: G.Entity)
    requires WriteOfRecord(e, rec, group) && e.Write? && !Blank(e.msg.traceId) && !Blank(e.msg.sender)
    ensures F.EntityAsked(e, "trace:" + TrimSpace(e.msg.traceId), row)
  {
    D.DecodedSubject(rec, group);
    D.DecodedOrigin(rec, group);
    F.BlankEmpty();
    hide Decode, TrimSpace, Blank;
    var p, at, id := e.payload.trace.value, e.msg.timestamp, "trace:" + TrimSpace(e.msg.traceId);
    row := G.Entity("trace", p.traceId, if Blank(p.title) then p.traceId else p.title, at, at,
                    map["span_type" := p.spanType]);
    assert F.TraceEntity(e.msg, p, id, row);
  }

  lemma CorrelationIsAsked(e: H.Event)
    returns (row: G.Entity)
    requires e.Write? && !Blank(FallbackId(e.msg.correlation, e.msg.id))
    ensures F.EntityAsked(e, "correlation:" + TrimSpace(FallbackId(e.msg.correlation, e.msg.id)), row)
  {
    hide TrimSpace, Blank;
    var name, at := FallbackId(e.msg.correlation, e.msg.id), e.msg.timestamp;
    row := G.Entity("correlation", name, name, at, at, map[]);
    assert F.EnvelopeEntity(e.msg, "correlation:" + TrimSpace(name), row);
  }

  /** An entity that a committed write asked for stands, with the kind and name of the row that bore it. */
  lemma AskedStands(
      states: seq<H.State>, events: seq<H.Event>, committed: seq<bool>, m: nat, k: nat, id: string, row: G.Entity)
    returns (e: H.Event, born: G.Entity)
    requires H.IsRun(states, events, committed) && m < |states|
    requires O.Wrote(events, committed, m, k) && F.EntityAsked(events[k], id, row)
    ensures var g := states[m].graph;
            && id in g.entities && F.EntityAsked(e, id, born) && g.entities[id].kind == born.kind
            && g.entities[id].canonicalId == born.canonicalId
            && !Less(g.entities[id].lastSeen, events[k].msg.timestamp)
  {
    F.EntitiesByFields(states, events, committed, m);
    hide H.IsRun, F.EntityAsked, Less, O.TouchedBy;
    var g := states[m].graph;
    assert id in g.entities;
    var j: nat :| F.BornOf(g.entities[id], events, committed, m, id, j);
    e := events[j];
    born :| F.EntityAsked(e, id, born) && F.SameBirth(g.entities[id], born);
  }

  /** MAIN RESULT.  Across the two stores, in every run of each: a task of the snapshot, once the graph write
      of one of its records went through, is an entity of the graph under its id; so is every flow, as its
      correlation, and every trace whose record has a sender. */
  lemma SnapshotIsInGraph(
      limit: int, states: seq<I.State>, events: seq<I.Event>, committed: seq<bool>, n: nat,
      gstates: seq<H.State>, gevents: seq<H.Event>, gcommitted: seq<bool>, m: nat, group: string, k: nat)
    requires I.IsRun(limit, states, events, committed)
    requires n <= |events| && |committed| == |events| && |states| == |events| + 1
    requires H.IsRun(gstates, gevents, gcommitted) && m < |gstates| && Decoded(gevents, group)
    requires O.Wrote(gevents, gcommitted, m, k)
    ensures k < |gevents| && gevents[k].Write?
    ensures var doc, ds, g := states[n].doc, T.CountedRecords(states, events, committed, n), gstates[m].graph;
            && (forall t, d :: t in doc.tasks && d in T.TaskPart(ds, t.id) && d.msg == gevents[k].msg ==>
                  Stands(g, "task:" + TrimSpace(t.id), "task", t.id, d.msg.timestamp))
            && (forall f, d :: f in doc.flows && d in T.FlowPart(ds, f.id) && d.msg == gevents[k].msg ==>
                  Stands(g, "correlation:" + TrimSpace(f.id), "correlation", f.id, d.msg.timestamp))
            && (forall t, d :: t in doc.traces && d in T.TracePart(ds, t.id) && d.msg == gevents[k].msg
                               && d.payload == gevents[k].payload && !Blank(d.msg.sender) ==>
                  Stands(g, "trace:" + TrimSpace(t.id), "trace", t.id, d.msg.timestamp))
  {
    hide I.IsRun, H.IsRun, Decode, TrimSpace, Blank, Less, F.EntityAsked, T.TaskPart, T.FlowPart,
         T.TracePart, FallbackId;
    var doc, ds, g := states[n].doc, T.CountedRecords(states, events, committed, n), gstates[m].graph;
    var e := gevents[k];
    var rec :| WriteOfRecord(e, rec, group);
    forall t, d | t in doc.tasks && d in T.TaskPart(ds, t.id) && d.msg == e.msg
      ensures Stands(g, "task:" + TrimSpace(t.id), "task", t.id, d.msg.timestamp)
    {
      PartsMean(ds, t.id, d);
      var row := TaskIsAsked(e, rec, group);
      var e', born := AskedStands(gstates, gevents, gcommitted, m, k, "task:" + TrimSpace(t.id), row);
      assert "task" + ":" == "task:";
      KindIs(e', "task", t.id, "task:" + TrimSpace(t.id), born);
    }
    forall f, d | f in doc.flows && d in T.FlowPart(ds, f.id) && d.msg == e.msg
      ensures Stands(g, "correlation:" + TrimSpace(f.id), "correlation", f.id, d.msg.timestamp)
    {
      PartsMean(ds, f.id, d);
      FlowsAreNamed(e, rec, group);
      var row := CorrelationIsAsked(e);
      var e', born := AskedStands(gstates, gevents, gcommitted, m, k, "correlation:" + TrimSpace(f.id), row);
      assert "correlation" + ":" == "correlation:";
      KindIs(e', "correlation", f.id, "correlation:" + TrimSpace(f.id), born);
    }
    forall t, d | t in doc.traces && d in T.TracePart(ds, t.id) && d.msg == e.msg && d.payload == e.payload
                  && !Blank(d.msg.sender)
      ensures Stands(g, "trace:" + TrimSpace(t.id), "trace", t.id, d.msg.timestamp)
    {
      PartsMean(ds, t.id, d);
      TraceIdsAgree(e, rec, group);
      var row := TraceIsAsked(e, rec, group);
      var e', born := AskedStands(gstates, gevents, gcommitted, m, k, "trace:" + TrimSpace(t.id), row);
      assert "trace" + ":" == "trace:";
      KindIs(e', "trace", t.id, "trace:" + TrimSpace(t.id), born);
    }
  }

  /** A record id holds colons, so a flow always has a name. */
  lemma FlowsAreNamed(e: H.Event, rec: Record, group: string)
    requires WriteOfRecord(e, rec, group)
    ensures !Blank(FallbackId(e.msg.correlation, e.msg.id))
  {
    D.DecodedOrigin(rec, group);
    hide Decode, Decimal, TrimSpace;
    var id := e.msg.id;
    assert id[|rec.topic|] == ':' && id[|rec.topic|] in id;
    BlankIs(id);
    assert !Blank(id);
    TrimTwice(e.msg.correlation);
  }

  /** A record that names a trace names it in its payload too. */
  lemma TraceIdsAgree(e: H.Event, rec: Record, group: string)
    requires WriteOfRecord(e, rec, group) && !Blank(e.msg.traceId)
    ensures e.payload.trace.Some? && e.payload.trace.value.traceId == e.msg.traceId
  {
    D.DecodedSubject(rec, group);
    F.BlankEmpty();
    hide Decode, Blank;
  }

  /** What it means that a record counted for a flow, a trace or a task. */
  lemma {:induction false} PartsMean(ds: seq<R.Delivery>, id: string, d: R.Delivery)
    ensures d in T.TaskPart(ds, id) ==> d in ds && !Blank(d.msg.taskId) && d.msg.taskId == id
    ensures d in T.FlowPart(ds, id) ==> d in ds && FallbackId(d.msg.correlation, d.msg.id) == id
    ensures d in T.TracePart(ds, id) ==>
              d in ds && !Blank(d.msg.traceId) && d.payload.trace.Some? && d.payload.trace.value.traceId == id
    decreases |ds|
  {
    hide Blank, FallbackId;
    if ds != [] {
      PartsMean(ds[..|ds| - 1], id, d);
    }
  }
}
