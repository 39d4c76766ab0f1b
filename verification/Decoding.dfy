/** What the observer makes of a record, field by field. */
module Decoding {
  import opened Ingest
  import opened Records
  import opened Text
  import Topics

  /** A record is refused exactly if its topic is none of the group's, or if nothing can be made of its body. */
  lemma RefusedIff(rec: Record, group: string)
    ensures Decode(rec, group).Rejected? <==> Topics.ClassifyTopic(rec.topic, group) == "" || rec.body.Undecodable?
    ensures Decode(rec, group).Rejected? ==>
              Decode(rec, group).reason ==
              if Topics.ClassifyTopic(rec.topic, group) == "" then "unknown_topic" else "invalid_envelope"
  {
    hide Topics.ClassifyTopic, RecordId, Enriched, FallbackId;
  }

  /** Where the record comes from. */
  lemma DecodedOrigin(rec: Record, group: string)
    requires Decode(rec, group).Accepted?
    ensures var d := Decode(rec, group);
            && d.msg.id == rec.topic + ":" + Decimal(rec.partition) + ":" + Decimal(rec.offset)
            && d.msg.topic == rec.topic && d.msg.timestamp == rec.timestamp
            && d.msg.family == Topics.ClassifyTopic(rec.topic, group) && d.msg.family != ""
            && d.branch == (if rec.body.Lfs? then "lfs" else if rec.body.Raw? then "raw" else d.msg.family)
            && d.payload == (if rec.body.Envelope? then rec.body.payload else NO_PAYLOAD)
            && d.msg.sender == (if rec.body.Envelope? then rec.body.sender else "")
  {
    hide Topics.ClassifyTopic, Decimal, FallbackId, FirstNonEmpty;
  }

  /** What belongs together: the correlation of the envelope, trimmed; its record id if it has none, and for a
      raw record; nothing for a pointer to a large file. */
  lemma DecodedCorrelation(rec: Record, group: string)
    requires Decode(rec, group).Accepted?
    ensures var d := Decode(rec, group);
            d.msg.correlation ==
            match rec.body
            case Lfs => ""
            case Raw(_) => d.msg.id
            case Envelope(_, _, correlation, _, _) =>
              if AllSpace(correlation) then d.msg.id else TrimSpace(correlation)
            case Undecodable => ""
  {
    if rec.body.Envelope? {
      BlankIs(rec.body.correlation);
    }
    hide Topics.ClassifyTopic, RecordId, FirstNonEmpty, AllSpace, Blank;
  }

  /** What the record is about: a request names its task and the parent, a response and a status name the
      task and its status, a trace names the trace; nothing else does. */
  lemma DecodedSubject(rec: Record, group: string)
    requires Decode(rec, group).Accepted?
    ensures var d, p := Decode(rec, group), Decode(rec, group).payload;
            var family := d.msg.family;
            && d.msg.taskId ==
               (if family == "requests" && p.request.Some? then p.request.value.taskId
                else if family == "responses" && p.response.Some? then p.response.value.taskId
                else if family == "tasks.status" && p.status.Some? then p.status.value.taskId
                else "")
            && d.msg.parentTaskId ==
               (if family == "requests" && p.request.Some? then p.request.value.parentTaskId else "")
            && d.msg.status ==
               (if family == "responses" && p.response.Some? then p.response.value.status
                else if family == "tasks.status" && p.status.Some? then p.status.value.status
                else "")
            && d.msg.traceId == (if family == "traces" && p.trace.Some? then p.trace.value.traceId else "")
  {
    hide Topics.ClassifyTopic, RecordId, FallbackId, FirstNonEmpty;
  }

  /** The first of three texts that holds more than white space, or nothing. */
  ghost predicate FirstFilled(a: string, b: string, c: string, chosen: string) {
    || (!AllSpace(a) && chosen == a)
    || (AllSpace(a) && !AllSpace(b) && chosen == b)
    || (AllSpace(a) && AllSpace(b) && chosen == if AllSpace(c) then "" else c)
  }

  lemma FillsFirst(a: string, b: string, c: string)
    ensures FirstFilled(a, b, c, FirstNonEmpty(FirstNonEmpty(a, b), c))
    ensures FirstFilled("", a, b, FirstNonEmpty(a, b))
  {
    BlankIs(a);
    BlankIs(b);
    BlankIs(c);
    BlankIs("");
    BlankIs(FirstNonEmpty(a, b));
    assert AllSpace("");
    hide AllSpace, Blank;
  }

  /** What is shown of a record whose family has a payload of its own. */
  ghost predicate ShownAs(family: string, p: Payload, preview: string, shown: string) {
    if family == "requests" && p.request.Some? then
      FirstFilled(p.request.value.description, p.request.value.content, preview, shown)
    else if family == "responses" && p.response.Some? then
      FirstFilled("", p.response.value.content, preview, shown)
    else if family == "tasks.status" && p.status.Some? then
      FirstFilled(p.status.value.summary, p.status.value.status, preview, shown)
    else if family == "traces" && p.trace.Some? then
      FirstFilled(p.trace.value.title, p.trace.value.content, preview, shown)
    else if family == "observe.audit" then FirstFilled("", preview, "audit event", shown)
    else shown == preview
  }

  lemma EnrichedPreview(msg: Message, p: Payload)
    ensures ShownAs(msg.family, p, msg.preview, Enriched(msg, p).preview)
  {
    if msg.family == "requests" && p.request.Some? {
      FillsFirst(p.request.value.description, p.request.value.content, msg.preview);
    } else if msg.family == "responses" && p.response.Some? {
      FillsFirst(p.response.value.content, msg.preview, "");
    } else if msg.family == "tasks.status" && p.status.Some? {
      FillsFirst(p.status.value.summary, p.status.value.status, msg.preview);
    } else if msg.family == "traces" && p.trace.Some? {
      FillsFirst(p.trace.value.title, p.trace.value.content, msg.preview);
    } else {
      FillsFirst(msg.preview, "audit event", "");
    }
    hide FirstNonEmpty, FirstFilled;
  }

  /** What is shown of the record. */
  lemma DecodedPreview(rec: Record, group: string)
    requires Decode(rec, group).Accepted?
    ensures var d := Decode(rec, group);
            match rec.body
            case Lfs => d.msg.preview == "LFS-backed payload"
            case Raw(text) => d.msg.preview == text
            case Envelope(_, _, _, preview, p) => ShownAs(d.msg.family, p, preview, d.msg.preview)
            case Undecodable => true
  {
    match rec.body {
      case Envelope(_, sender, correlation, preview, p) =>
        var id, family := RecordId(rec), Topics.ClassifyTopic(rec.topic, group);
        var plain := Message(id, rec.topic, family, rec.timestamp, sender, FallbackId(correlation, id),
                             "", "", "", "", preview);
        EnrichedPreview(plain, p);
        EnrichedFamily(plain, p);
        hide Topics.ClassifyTopic, RecordId, FallbackId, Enriched, ShownAs;
      case _ =>
    }
  }

  lemma EnrichedFamily(msg: Message, p: Payload)
    ensures Enriched(msg, p).family == msg.family
  {
    hide FirstNonEmpty;
  }

  /** A record that names a task says so in the payload of its own family, under the branch of that family. */
  lemma TaskIsNamed(rec: Record, group: string)
    requires Decode(rec, group).Accepted? && !Blank(Decode(rec, group).msg.taskId)
    ensures var d := Decode(rec, group);
            || (d.branch == "requests" && d.payload.request.Some? && d.payload.request.value.taskId == d.msg.taskId)
            || (d.branch == "responses" && d.payload.response.Some? && d.payload.response.value.taskId == d.msg.taskId)
            || (d.branch == "tasks.status" && d.payload.status.Some? && d.payload.status.value.taskId == d.msg.taskId)
  {
    DecodedSubject(rec, group);
    DecodedOrigin(rec, group);
    BlankIs("");
    assert AllSpace("");
    hide Decode, Blank;
  }
}
