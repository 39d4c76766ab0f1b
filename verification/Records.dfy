/** What the observer decodes from Kafka and what it keeps: messages, payloads, flows,
    traces, tasks and the health counters.

    Decoding is an input: a record arrives with what the decoders make of it.  A text field
    that holds only white space is taken as empty from the start; the observer tests every
    such field with a trimmed comparison and stores it as NULL.
 */
module Records {

  datatype Option<T> = None | Some(value: T)

  datatype Message = Message(
    id: string, topic: string, family: string, timestamp: string, sender: string, correlation: string,
    traceId: string, taskId: string, parentTaskId: string, status: string, preview: string)

  datatype RequestPayload = RequestPayload(
    taskId: string, description: string, content: string, requesterId: string, parentTaskId: string,
    originalRequesterId: string)

  datatype ResponsePayload = ResponsePayload(taskId: string, responderId: string, content: string, status: string)

  datatype StatusPayload = StatusPayload(taskId: string, responderId: string, status: string, summary: string)

  datatype TracePayload = TracePayload(
    traceId: string, spanType: string, title: string, content: string, startedAt: string, endedAt: string,
    durationMs: int)

  /** What each of the four payload decoders makes of an envelope's payload. */
  datatype Payload = Payload(
    request: Option<RequestPayload>, response: Option<ResponsePayload>, status: Option<StatusPayload>,
    trace: Option<TracePayload>)

  const NO_PAYLOAD := Payload(None, None, None, None)

  datatype Flow = Flow(
    id: string, firstSeen: string, lastSeen: string, messageCount: nat, latestStatus: string, latestPreview: string,
    topics: seq<string>, senders: seq<string>, traceIds: seq<string>, taskIds: seq<string>,
    topicCount: nat, senderCount: nat)

  datatype Trace = Trace(
    id: string, spanCount: nat, agents: seq<string>, spanTypes: seq<string>, latestTitle: string,
    startedAt: string, endedAt: string, durationMs: int)

  datatype Task = Task(
    id: string, parentTaskId: string, requesterId: string, responderId: string, originalRequesterId: string,
    status: string, description: string, lastSummary: string, firstSeen: string, lastSeen: string)

  /** `rejectedByReason` is the counter per reason; its size is the sum of the counters. */
  datatype Health = Health(
    accepted: nat, rejected: nat, mirrored: nat, mirrorFailed: nat, rejectedByReason: multiset<string>)

  datatype Snapshot = Snapshot(
    messages: seq<Message>, flows: seq<Flow>, traces: seq<Trace>, tasks: seq<Task>, health: Health)

  /** A replay as the store knows it. */
  datatype Session = Session(
    id: string, groupId: string, status: string, startedAt: string, finishedAt: string, count: nat,
    topics: seq<string>, lastError: string)

  /** The health fields about replays. */
  datatype ReplayHealth = ReplayHealth(
    status: string, active: nat, lastError: string, lastFinishedAt: string, lastCount: nat)

  const EMPTY := Snapshot([], [], [], [], Health(0, 0, 0, 0, multiset{}))
}
