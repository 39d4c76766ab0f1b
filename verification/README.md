# AgentOps observer: a model and its proofs

The observer reads Kafka records of an agent system and folds them into a bounded snapshot (messages,
flows, traces, tasks, health counters) and an entity graph, both kept in one SQLite database. A live loop
and any number of replays do so side by side; an API reads the result page by page and by graph walks.
This project models that core and proves what it keeps.

The modules, in reading order:

- `Ordering`, `Text`, `Lists`, `Records`: sorting, trimming, keyed lists, and the stored entities.
- `Topics`: topic names and their classification.
- `Decoding`: what a record is decoded into, field by field.
- `Ingest`: what one accepted message does to the snapshot. `IngestRuns`: all runs of such steps, with any
  interleaving and any failing transaction. `Retention`, `Stamps`, `Redelivery`, `Tally`, `Participants`:
  which messages are kept, by the clock too, what repeats do, and what flows, traces and tasks hold in
  closed form.
- `FlowTables`, `Keyset`, `Listings`: flows split over two tables, pages with cursors, and both over reached
  stores.
- `GraphWriter`: the graph statements of one message against tables with the constraints of the schema.
  `GraphHistory`, `GraphOutcome`, `GraphFields`: what runs of graph writes and snapshot updates keep and add up
  to, the last in terms of the fields of the messages alone.
  `GraphPlan`, `GraphRows`: the statements of a message as a list, and the exact history of every edge row.
  `GraphWedge`, `GraphCommits`: exactly when an update and when a graph write is refused.
  `GraphExamples`: runs in which they are. `GraphLogs`: which writes go through when nothing disturbs the
  store, from the writes alone.
- `GraphReader`: neighbourhoods and shortest paths. `GraphReads`: what they answer after any run of writes.
  `PointInRing`: the even-odd test.
- `Observer`: the observer as an object with both state machines inside; its ghost history is a run of each.
  `Stores`: the snapshot and the graph against each other. `Streams`: one observer fed a stream with repeats,
  another one fed the first occurrences.
- `Replay`, `ReplayQueue`: one replay, and the queue of replay requests.
- `RateLimiter`, `LineWriter`, `Packs`, `PackLaws`, `PackContents`: the per-IP token bucket, the line-buffering
  log writer, and the loading of domain packs.

State machines are written as relations between states, so that a theorem about all runs covers every
interleaving; the methods that follow the code are proved to take exactly such steps. A `World`, a poll or a
flag is what the surroundings decide: whether the disk takes a transaction, what a poll brings.

## Findings

Some promises one might read into the code do not hold. Each has its exact condition:

- An update of the snapshot deletes and re-inserts the message rows. The graph's edges refer to them with
  ON DELETE SET NULL (internal/graph/schema/schema.sql:20), so each update clears the evidence of all edges,
  and the unique index over edges (internal/graph/schema/schema.sql:27-28) refuses the update if two edges
  then agree. In every run this is so if and only if two committed writes collide: both ask for one edge
  starting at the same instant, their records differ or an update went through in between, and both edges
  are open or were closed at the same instant (`GraphWedge.TwinsIff`). From then on no update ever commits:
  the loop goes on consuming and keeps nothing (`GraphWedge.WedgedForEver`, `Observer.Observer.Consume`).
  Two messages of one correlation on one topic within the same second lead there
  (`GraphWedge.SharedEdgeWedges`), one record delivered twice (`GraphWedge.RedeliveryWedges`,
  `Observer.RedeliveryIsFinal`; runs: `GraphExamples.DeliveredTwice`), and two requests for one open task by
  one requester within the same second, even under different correlations (`GraphExamples.RequestedTwice`).
  The repository's own test of a redelivered record makes no update after it
  (internal/agentops/kafka/runtime_test.go:118-124).
- Exactly-once holds of what commits (`Redelivery.ExactlyOnce`). An observer that nothing disturbs takes
  exactly the records before the first clash of two of their writes, which the records alone determine
  (`Streams.StreamTracked`, `Streams.StopIsClash`). If every graph write of the first occurrences goes
  through, a stream with repeats ends like them if and only if no new record follows a repeat whose graph
  write goes through again; one does unless its closing jams (`Streams.RepeatsStopTheStore`,
  `Streams.StreamAndFirsts`). The plainest case: one record twice and then another one, which is lost
  (`Streams.NewRecordIsLost`).
- An edge's evidence is not append-only, nor is `valid_to` its only change: between two steps it is cleared if
  and only if an update went through in between (`GraphHistory.HistoryIsKept`, `GraphRows.EdgeHistory`).
- The graph write of an accepted record is refused if and only if its message is no longer retained, or it
  closes a task with an open edge into it that, once closed, would agree with one already closed at that
  instant (`GraphCommits.WriteCommitsIff`). The first happens to a record that retention drops at once, which
  is then accepted, counted and rejected (`Streams.AcceptedAndRejected`); the second to a task requested and
  completed twice within one second, and to one terminal response that is written by the live loop and again
  by a replay (`GraphExamples.CompletedTwice`, `GraphExamples.RespondedTwice`).
- A dropped record counts again when it is redelivered; this can happen exactly when more records were
  accepted than the limit (`Redelivery.WindowIsExact`, `Redelivery.DroppedRecordCountsTwice`).
- A terminal response that names neither a responder nor a sender closes no edge, and this is the only
  exception (`GraphOutcome.TerminalCloses`, `GraphExamples.AnsweredByNobody`).
- Repeating the first vertex of a ring can change the answer for rings of two vertices
  (`PointInRing.ClosingVertex`).
- A replay request whose claim was committed but not read back, or whose outcome could not be marked, stays
  claimed for ever (`ReplayQueue.AbandonedForEver`).
- An idle bucket may be forgotten unnoticed only if it had time to refill; the deployed limiter meets this
  (`RateLimiter.EvictionUnobservableIff`).
- Directory names matter for packs that refer to one another (`PackLaws.OnlyReferencesFeelOrder`,
  `PackLaws.OrderCanMatter`).

A crawl over pages would break off at a row with an empty time or id (`Keyset.CrawlOutcome`); no reached store
holds such a row, so every crawl of one ends and lists everything (`Listings.MessagesCrawl`,
`Listings.FlowsCrawl`).

## Model

| member | source | states |
|---|---|---|
| RateLimiter.Limiter.Allow | internal/collector/api/api.go:737-757 | one request refills, caps and spends the client's bucket, creating a full one if there is none; other buckets stay |
| RateLimiter.Limiter.EvictStale | internal/collector/api/api.go:759-772 | exactly the buckets not seen for longer than the stale age are forgotten, the others stay as they are |
| RateLimiter.TakeIs | internal/collector/api/api.go:746-756 | the bucket of one request: refilled by rate * elapsed, cut at burst, and less one token if it holds one |
| RateLimiter.GrantsExactlyWithinBound | internal/collector/api/api.go:737-757 | a request is granted if and only if every window that ends with it stays within burst + rate * length |
| RateLimiter.RateBound | internal/collector/api/api.go:737-772 | with evictions, the requests granted to one client in any window are at most burst + rate * length |
| RateLimiter.SpacedNeverRefused | internal/collector/api/api.go:737-772 | on every schedule, with or without evictions and whatever the others do, a client whose requests are at least 1/rate apart is never refused |
| RateLimiter.TokensStayInRange | internal/collector/api/api.go:744-772 | on every schedule, with or without evictions, every bucket holds between 0 and burst tokens |
| RateLimiter.ClientsAreIndependent | internal/collector/api/api.go:737-757 | the answers to one client do not depend on the requests of others |
| RateLimiter.EvictionUnobservableIff | internal/collector/api/api.go:759-772 | eviction changes no answer on any schedule if and only if rate * staleAge >= burst (or nothing is ever granted) |
| RateLimiter.EvictionObserved | internal/collector/api/api.go:759-772 | otherwise some schedule is answered differently |
| RateLimiter.DeployedSettings | internal/collector/api/api.go:69 | with 30, 5 per second and 10 minutes eviction is unobservable |
| LineWriter.TimestampWriter.Write | internal/collector/app/logwriter.go:26-46 | what one call emits and leaves buffered, its result, and where it stops if the destination refuses a line |
| LineWriter.CutIsLossless | internal/collector/app/logwriter.go:26-46 | the lines, each with a newline, and the rest make up the stream, and no line holds a newline |
| LineWriter.CutIsUnique | internal/collector/app/logwriter.go:26-46 | there is only one such division into lines and a rest |
| LineWriter.ChunkingIsInvisible | internal/collector/app/logwriter.go:26-46 | every way of cutting a stream into calls emits the same lines and leaves the same buffer |
| LineWriter.WriteAll | internal/collector/app/logwriter.go:26-46 | calls in a row emit what one call with all the bytes would |
| Topics.ClassifyInvertsTopicForFamily | internal/agentops/contract/topics.go:42-122 | a family has a topic if and only if its trimmed name is a fixed family, and the topic classifies back to it, for every group name |
| Topics.ClassifyIsSound | internal/agentops/contract/topics.go:92-122 | a topic classifies as a fixed family only if it is that family's topic, as skills only under the skill prefix, and as nothing only if it is no family's topic |
| Topics.NormalizeTopics | internal/agentops/contract/topics.go:124-140 | the one strictly sorted list of the trimmed values that are not blank |
| Text.TrimIs | internal/agentops/contract/topics.go:124-140 | trimming cuts off white space at both ends and nothing else |
| Text.SpacesAre | internal/agentops/contract/topics.go:124-140 | which characters are white space |
| Topics.DeriveTopics | internal/agentops/contract/topics.go:72-86 | manual mode normalizes the given list; auto mode returns the strictly sorted topics of exactly the requested fixed families |
| Topics.DerivedTopicsAreKnown | internal/agentops/contract/topics.go:72-122 | every derived topic classifies to a requested family, so none is unknown |
| Decoding.RefusedIff | internal/agentops/kafka/runtime.go:332-372 | a record is refused if and only if its topic is none of the group's or nothing can be made of its body; and for which reason |
| Decoding.DecodedOrigin | internal/agentops/kafka/runtime.go:333-388 | id, topic, family, timestamp, branch, sender and payload of the message, from the record's own fields |
| Decoding.DecodedCorrelation | internal/agentops/kafka/runtime.go:373-388 | the correlation: the envelope's, trimmed, or the record id; the record id for a raw record |
| Decoding.DecodedSubject | internal/agentops/kafka/runtime.go:390-416 | for every family, which task id, parent task id, status and trace id the message carries |
| Decoding.DecodedPreview | internal/agentops/kafka/runtime.go:390-419 | for every family, which text is shown: the first of its candidates that holds more than white space |
| Ingest.UpdateFlow | internal/agentops/kafka/runtime.go:509-527 | the flow of the message's correlation is created or touched once, all others stay, and the list is sorted by last sighting |
| Ingest.UpdateTraceMessage | internal/agentops/kafka/runtime.go:529-556 | the named trace is created or touched once and the list is sorted by start; nothing happens if and only if no trace is named |
| Ingest.UpdateTaskMessage | internal/agentops/kafka/runtime.go:558-593 | the named task is created or touched once as its family demands and the list is sorted by last sighting; nothing happens if and only if no task is named |
| Ingest.AcceptInto | internal/agentops/kafka/runtime.go:430-452 | a known id changes nothing; a new one is folded in, counted once, and the messages are sorted newest first and cut to the limit |
| IngestRuns.AccountsBalance | internal/agentops/kafka/runtime.go:252-271 | in every run: ids are unique and participant lists clean and counted, flow counts add up to the accepted count, retained messages never exceed it, rejected equals the sum over reasons and mirrored + unmirrored |
| Tally.CountersAddUp | internal/agentops/kafka/runtime.go:252-271 | in every run accepted is the number of records that counted, and rejected the number of noted rejects, each under its reason and as mirrored or not |
| IngestRuns.RetainedMessages | internal/agentops/kafka/runtime.go:438-442 | after a cut the list is in order, full or complete, and nothing dropped is newer than anything kept |
| IngestRuns.ReloadKeepsSound | internal/agentops/store/sqlite_store.go:109-129 | a re-read keeps ids and counts, whatever participant lists it loses |
| Retention.RetentionIsTopK | internal/agentops/kafka/runtime.go:430-458 | in every run with fixed timestamps, min(limit, n) of the n accepted records are retained and no dropped one is newer than a retained one, also when dropped records come back |
| Retention.RetainedIsFrontOfHistory | internal/agentops/kafka/runtime.go:430-458 | the retained timestamps are the front of any newest-first listing of all accepted records |
| Text.LessIsLexical | internal/agentops/kafka/runtime.go:439 | one string is less than another if and only if they first differ in a code point that is less, or it is a proper beginning of the other |
| Stamps.StampsInClockOrder | internal/agentops/kafka/runtime.go:883-888 | of two time stamps as the observer writes them the lesser string is the earlier instant |
| Stamps.LatestAreRetained | internal/agentops/kafka/runtime.go:430-458 | in every run of records stamped by the clock, no dropped record is later than a retained one, and the retained ones are listed latest first |
| Redelivery.RecordIdIsInjective | internal/agentops/kafka/runtime.go:332-333 | two records have the same id if and only if topic, partition and offset agree, even if topics contain colons |
| Redelivery.RunRefines | internal/agentops/kafka/runtime.go:332-463 | within the window the snapshot, as tables, is the fold of the deliveries |
| Redelivery.RepeatsAreInvisible | internal/agentops/kafka/runtime.go:430-434 | the fold over a stream with repeats equals the fold over first occurrences |
| Redelivery.ExactlyOnce | internal/agentops/kafka/runtime.go:332-463 | of the updates that commit: within the window, a run with repeats and a run with first occurrences only end with the same messages, counts, traces, tasks and accepted count; `Streams.StreamAndFirsts` says when they commit |
| Redelivery.WindowIsExact | internal/agentops/kafka/runtime.go:440-442 | some accepted record is no longer retained if and only if more were accepted than the limit |
| Redelivery.DroppedRecordCountsTwice | internal/agentops/kafka/runtime.go:430-458 | for any two records of different age and a window of one: a run in which the older is dropped and counts a second time when it is redelivered |
| Redelivery.DroppedAtOnce | internal/agentops/kafka/runtime.go:430-458 | a run in which a record older than the window is accepted, counted and never retained |
| Streams.EndsAgreeIff | internal/agentops/kafka/runtime.go:430-463 | within the window, part of a stream and part of its first occurrences leave the same tables if and only if the same records are in both parts |
| Streams.StreamTracked | internal/agentops/kafka/runtime.go:249-463 | an undisturbed store commits exactly the graph writes that the records themselves determine, and takes exactly the records before the first clash |
| Streams.StopIsClash | internal/agentops/kafka/runtime.go:249-463 | a record is taken if and only if no two writes that went through before it clash |
| Streams.RepeatsStopTheStore | internal/agentops/kafka/runtime.go:430-463 | if every write of the first occurrences goes through, a stream with repeats is taken as far as they are if and only if nothing new follows a repeat whose write goes through again, which it does unless its closing jams on what the first occurrences left |
| Streams.StreamAndFirsts | internal/agentops/kafka/runtime.go:249-463 | two fresh observers and a disk that takes everything, one fed a stream with repeats, one its first occurrences: each commits exactly the writes its records determine and takes exactly the records before their first clash; both end alike if and only if the same records came before that, and, if every write of the first occurrences goes through, if and only if nothing new follows a repeat whose write goes through again |
| Streams.NewRecordIsLost | internal/agentops/kafka/runtime.go:430-463 | for any two records that close nothing and share no edge: delivered first, first again, second, the second is lost |
| Streams.AcceptedAndRejected | internal/agentops/kafka/runtime.go:440-461 | a run that accepts and counts a record after which every graph refuses its write |
| Participants.ListsAddUp | internal/agentops/kafka/runtime.go:509-556 | in every run the topics, senders, trace ids and task ids of each flow, and the agents and span types of each trace, are exactly the trimmed values given by its records since a re-read last lost the lists; by all of them if none did |
| Participants.SnapshotInFull | internal/agentops/kafka/runtime.go:509-593 | in every run every field of each flow, trace and task is what exactly the records that counted for it say: number, first and last sighting, latest values, participant lists as above; and every such record has its flow, trace and task |
| Tally.TasksTally | internal/agentops/kafka/runtime.go:558-593 | every field of a task is the latest value that its records gave, the family of a record deciding which fields it gives |
| Tally.CountedAreFirsts | internal/agentops/kafka/runtime.go:430-434 | within the window the records that count are the first occurrences of those delivered |
| FlowTables.ReachedIsInsertable | internal/agentops/store/sqlite_store.go:314-353 | every reachable snapshot meets the primary keys of the flow tables |
| FlowTables.FlowDb.InsertValues | internal/agentops/store/sqlite_store.go:314-353 | one list of a flow is inserted row by row, and refused if and only if it has a duplicate |
| FlowTables.FlowDb.InsertFlows | internal/agentops/store/sqlite_store.go:314-353 | flows and participants are inserted in full, column by column and kind by kind, or refused if and only if a flow id or a list value comes twice |
| FlowTables.AttachFlowParticipants | internal/agentops/store/query.go:304-341 | each flow of a page gets exactly the participants stored for it, by kind, in order |
| FlowTables.ListFlows | internal/agentops/store/query.go:20-95 | one request: the page of flow rows with their participants and counts, or a refused cursor |
| FlowTables.SplitRegroup | internal/agentops/store/query.go:304-341 | splitting flows into two tables and attaching the participants gives each flow back, lists sorted |
| FlowTables.ListedFlowsAreWhole | internal/agentops/store/query.go:73-94 | every flow on every page of every listing is one of the inserted flows, whole |
| Listings.ReachedComesBack | internal/agentops/store/sqlite_store.go:314-353 | a flow of a reached store comes back from the two tables with every field as it was, its lists sorted |
| Listings.MessagesCrawl | internal/agentops/store/query.go:118-168 | in every reached store a crawl over any choice of messages ends and lists each of them once, newest first |
| Listings.FlowsCrawl | internal/agentops/store/query.go:20-95 | in every reached store a crawl over any choice of flows ends and lists each of them once, newest first, whole, with its participants and counts, on max(1, ceil(n/limit)) pages |
| Keyset.List | internal/agentops/store/query.go:118-168 | one request: limit + 1 rows after the cursor, cut to a page, with a cursor exactly if there is more |
| Keyset.PageByFields | internal/agentops/store/query.go:438-472 | one answered request by its fields: which cursors are refused, 50 rows if the limit is not positive and 500 at most, the latest of the matching rows after the cursor, latest first, and a cursor on the last one if and only if there are more |
| Keyset.PageIsSlice | internal/agentops/store/query.go:31-71 | a page holds exactly the matching rows after its cursor and up to the cursor it hands out |
| Keyset.NextListing | internal/agentops/store/query.go:292-302 | the cursor of the n-th row leads to exactly the rows after it |
| Keyset.KeyBeforeIsOrder | internal/agentops/store/query.go:36-44 | the cursor comparison is a strict order, so cursors decrease |
| Keyset.CrawlIsComplete | internal/agentops/store/query.go:20-95 | a finished crawl lists no row twice and every matching row that stayed throughout, whatever was written in between |
| Keyset.CrawlOutcome | internal/agentops/store/query.go:438-472 | over a fixed table a crawl reaches the end if and only if the rows that end pages have time and id; then it lists all rows in order on max(1, ceil(n/limit)) pages |
| GraphWriter.GraphStore.UpsertEntity | internal/graph/writer.go:58-75 | inserts the row, or updates name (unless empty), last sighting (a maximum) and attributes and keeps the rest; refused if and only if the id is new and another id has the same type and canonical id |
| GraphWriter.GraphStore.AppendEdge | internal/graph/writer.go:77-108 | returns the row with the same identity or inserts one; refused if and only if a reference is missing |
| GraphWriter.GraphStore.CloseOpenEdges | internal/graph/writer.go:126-143 | closes exactly the open edges of the given kinds into the entity, none if no kind is given; refused if and only if two rows would agree on the index |
| GraphWriter.GraphStore.AppendGraphEdge | internal/agentops/kafka/runtime.go:1263-1288 | an open edge with the given ends, kind, start and evidence, and one provenance row that names it, its branch and whether it was there before |
| GraphWriter.GraphStore.AppendRequestGraph | internal/agentops/kafka/runtime.go:1116-1166 | the statements of a request, in order; `GraphFields.PlanByFields` tells them by the fields |
| GraphWriter.GraphStore.AppendResponseGraph | internal/agentops/kafka/runtime.go:1168-1207 | the statements of a response, closing only for a terminal status with a responder |
| GraphWriter.GraphStore.AppendTraceGraph | internal/agentops/kafka/runtime.go:1209-1238 | the statements of a trace |
| GraphWriter.GraphStore.AppendTaskStatusGraph | internal/agentops/kafka/runtime.go:1240-1261 | the statements of a status |
| GraphWriter.GraphStore.AppendGraph | internal/agentops/kafka/runtime.go:1057-1114 | all statements of a message, or none of them; `GraphFields.PlanByFields` tells them by the fields |
| GraphHistory.HistoryIsKept | internal/agentops/kafka/runtime.go:1057-1288 | in every run: edge ends are entities, rows are never lost, an edge changes only by being closed once and losing its evidence, which it does if and only if an update went through in between, first_seen <= last_seen, provenance names existing edges |
| GraphRows.EdgeHistory | internal/agentops/kafka/runtime.go:1168-1288 | the exact history of every edge row: closed at the first committed closing of its task, evidence cleared by the first update, nothing else |
| GraphHistory.PerformKeepsSound | internal/graph/writer.go:58-143 | every single statement keeps the invariant and extends the tables |
| GraphOutcome.GraphAddsUp | internal/graph/writer.go:58-108 | in every run the entities and edge shapes are exactly those that committed writes asked for, and last_seen is the newest timestamp; by fields in `GraphFields` |
| GraphOutcome.OrderIsImmaterial | internal/agentops/kafka/runtime.go:1057-1288 | the same committed writes in any order, with repeats and updates in between, give the same entities, last sightings and edge shapes |
| GraphFields.PlanByFields | internal/agentops/kafka/runtime.go:1057-1261 | the statements of a message are exactly those that its fields ask for: entities with all columns, edges, and the closing |
| GraphFields.EdgesByFields | internal/agentops/kafka/runtime.go:1057-1261 | in every run, for each of mentions, member_of, sent, delegated_to, responded and spans: an edge between two entities that starts at an instant exists if and only if a committed write at that instant with these fields asked for it; there are no other kinds |
| GraphFields.EntitiesByFields | internal/agentops/kafka/runtime.go:1057-1261 | in every run an entity exists if and only if a committed write asked for it by its fields; kind, canonical id and first sighting are those of the first such write, the last sighting is the newest, the attributes are those of the last |
| GraphFields.ClosesByFields | internal/agentops/kafka/runtime.go:1168-1261 | a write closes exactly the sent, responded and delegated_to edges into the task that its fields say has ended |
| GraphOutcome.TerminalCloses | internal/agentops/kafka/runtime.go:1168-1261 | after a terminal response or status no task edge into the task is open if and only if the message is attributed to somebody or none was open before |
| GraphWedge.TwinsIff | internal/graph/schema/schema.sql:20-28 | in every run two edges differ only in evidence, so that the next update is refused, if and only if two committed writes collide: one edge asked for at one instant, by different records or across an update, and closed at the same instant or not at all |
| GraphWedge.UpdateGoesIff | internal/agentops/store/sqlite_store.go:131-186 | in every state that meets the invariant of all runs, an update can commit if and only if no two edges agree on everything but their evidence |
| GraphWedge.WedgedForEver | internal/agentops/store/sqlite_store.go:131-186 | two edges that differ only in evidence do so for ever, and no update commits any more |
| GraphWedge.SharedEdgeWedges | internal/graph/writer.go:77-108 | from `TwinsIff`: two committed writes that ask for the same lasting edge at the same instant lead there |
| GraphWedge.RedeliveryWedges | internal/agentops/kafka/runtime.go:430-463 | from `TwinsIff`: so does the second graph write of one record |
| GraphWedge.NeverWedged | internal/agentops/store/sqlite_store.go:131-186 | from `TwinsIff`: as long as no two committed writes ask for a common edge, every update can commit |
| GraphCommits.WriteCommitsIff | internal/agentops/kafka/runtime.go:1057-1288 | in every state that meets the invariant of all runs, a graph write goes through if and only if its message is retained and its closing makes no open edge agree with one closed at that instant before |
| GraphCommits.OpenWriteCommits | internal/agentops/kafka/runtime.go:1263-1288 | a write that closes nothing goes through if and only if its message is retained, whatever edges there are |
| GraphCommits.CommittedIsRetained | internal/agentops/kafka/runtime.go:1263-1288 | no graph write goes through without its message in the message table |
| GraphExamples.DeliveredTwice | internal/agentops/kafka/runtime.go:430-463 | for every raw record: a run in which it is delivered twice, everything commits, and the next update is refused |
| GraphExamples.RequestedTwice | internal/agentops/kafka/runtime.go:1116-1166 | a run of two requests for one task in one second under different correlations, after which the next update is refused |
| GraphExamples.CompletedTwice | internal/graph/writer.go:126-143 | a run of a request, its completion and a second request within one second, after which the second completion is refused although its message is retained |
| GraphExamples.RespondedTwice | internal/graph/writer.go:126-143 | for every attributed terminal response: a run after which its second graph write is refused although its message is retained |
| GraphExamples.AnsweredByNobody | internal/agentops/kafka/runtime.go:1183-1189 | a run in which a terminal response without responder or sender leaves the task's edge open |
| GraphReader.BuildAdjacency | internal/graph/query.go:119-125 | the list of every entity is exactly the edges that start there as they are and those that end there mirrored, in order |
| GraphReader.Expand | internal/graph/query.go:144-152 | one step of the search queues the unseen neighbours with their parents |
| GraphReader.Search | internal/graph/query.go:131-153 | the search reaches the target if and only if it is in the ball, with parents that lead back level by level |
| GraphReader.WalkBack | internal/graph/query.go:157-165 | the parent walk ends and yields a trail of minimal length |
| GraphReader.ReverseEdges | internal/graph/query.go:486-490 | the array is reversed in place |
| GraphReader.LoadEdgeByShape | internal/graph/query.go:392-402 | the newest row of the edge's shape, or none if no row has it |
| GraphReader.NeighborhoodIsBall | internal/graph/query.go:39-103 | exactly the entities that a trail of at most `depth` filtered edges leads to, one edge for depths below 1 and three for depths above 3, and exactly the filtered edges among them; a filter without a value that is not blank lets everything through |
| GraphReader.NeighborhoodIsMonotone | internal/graph/query.go:39-103 | a larger depth loses no entity and no edge |
| GraphReader.Path | internal/graph/query.go:105-168 | found if and only if the source is an entity and some undirected path of at most `maxDepth` edges leads there, one edge below 1 and three above 3; the result is such a path, of minimal length |
| GraphReads.ReachedIsReadable | internal/graph/query.go:105-130 | the tables of every reached graph meet what the path query asks for |
| GraphReads.NeighborhoodOfWrites | internal/graph/query.go:39-103 | after any run a neighbourhood is exactly the entities of committed writes that at most `depth` of their edges lead to (one below 1, three above 3), and its edges are the edges of those writes among them |
| GraphReads.PathOfWrites | internal/graph/query.go:105-168 | after any run a path is found if and only if at most `maxDepth` edges of committed writes lead there (one below 1, three above 3), and it is a shortest one |
| PointInRing.PointInRing | internal/graph/query.go:624-641 | the loop computes the parity of the crossings of the closed walk |
| PointInRing.CrossesIff | internal/graph/query.go:632-634 | an edge is crossed if and only if one end is above the point and the other is not and the point is left of it, without division, the rise taken 1e-12 too large |
| PointInRing.RectangleIsInside | internal/graph/query.go:624-641 | the inside of an upright rectangle, its left and lower sides included, unless it is exactly 1e-12 high |
| PointInRing.RotationInvariant | internal/graph/query.go:624-641 | the starting vertex does not matter |
| PointInRing.ClosingVertex | internal/graph/query.go:624-641 | repeating the first vertex changes nothing if and only if the ring has not two vertices or the two directions of its edge agree |
| PointInRing.ClosingTwoVerticesMatters | internal/graph/query.go:624-641 | a ring of two vertices for which it does change the answer |
| PointInRing.ClosedCurveIsEven | internal/graph/query.go:624-641 | a closed curve passes every height an even number of times |
| PointInRing.EitherRayWillDo | internal/graph/query.go:624-641 | crossings to the left and to the right have the same parity |
| PointInRing.OutOfHeightIsOutside | internal/graph/query.go:624-641 | a point below every vertex, or at or above every vertex, is outside |
| PointInRing.FarLeftIsOutside | internal/graph/query.go:624-641 | a point left of all crossings is outside |
| Observer.Observer.Update | internal/agentops/store/sqlite_store.go:68-81 | commits if and only if the disk does and no two edges are twins; then the snapshot is replaced and all evidence cleared, else nothing changes |
| Observer.Observer.Reload | internal/agentops/store/sqlite_store.go:109-129 | the snapshot is read back, messages, flows, traces, tasks and sessions each in their order, but for the participant lists that are lost |
| Observer.Observer.AcceptMessage | internal/agentops/kafka/runtime.go:430-463 | the exact outcome of the two transactions, its reason, and what both add to the history, which stays a run of both state machines |
| Observer.Observer.AppendGraph | internal/agentops/store/sqlite_store.go:83-103 | a graph transaction and the re-read after it; a failed re-read is reported although the graph is written |
| Observer.Observer.HandleRecord | internal/agentops/kafka/runtime.go:332-428 | a record that does not decode changes nothing; one that does is tried as an update and then as a graph write, once, with the answer that follows; what it decodes into is in `Decoding` |
| Observer.Observer.NoteReject | internal/agentops/kafka/runtime.go:258-270 | one reject is counted under its reason and as mirrored or not, or the note is lost with its update |
| Observer.Observer.NoteReplays | internal/agentops/kafka/runtime.go:719-744 | one update of the replay sessions and health fields, or none if it is refused |
| Observer.Observer.Consume | internal/agentops/kafka/runtime.go:249-279 | the whole history that a batch adds, record by record, is determined by the records, the surroundings and the ids the cut retains: what is tried, what goes through, which records are taken, and each answer; every refusal is noted once, in order; once wedged, nothing of a batch is kept |
| Observer.RedeliveryIsFinal | internal/agentops/kafka/runtime.go:430-463 | after the second graph write of a record the store stays wedged, whatever happens |
| Stores.SnapshotIsInGraph | internal/agentops/kafka/runtime.go:420-463 | across the two stores, in every run of each: a task of the snapshot, once the graph write of one of its records went through, is the task entity of that id, seen no earlier; likewise every flow as its correlation, and every trace whose record has a sender |
| Stores.StreamIsDecoded | internal/agentops/kafka/runtime.go:420-463 | every graph write in the history of a stream is that of a decoded record |
| Replay.RunReplay | internal/agentops/kafka/runtime.go:655-717 | on every exit the history grows by exactly one report, as its last update, after the front of all polled records was handled and no reject noted; if the report is stored, the replay's session and the health fields carry it and the other sessions stay |
| Replay.TakeTurns | internal/agentops/kafka/runtime.go:669-716 | the polling loop: how it ends, what it polled, and that the front of it was handled |
| Replay.HandleBatch | internal/agentops/kafka/runtime.go:700-706 | handles the batch in order until the limit |
| Replay.FinishReplay | internal/agentops/kafka/runtime.go:719-744 | exactly one update, which sets the outcome of the replay's session, if it is still listed, and the health fields; its failure is ignored |
| Replay.EndIsUnique | internal/agentops/kafka/runtime.go:669-717 | the polls determine where the replay ends and what it reports |
| Replay.PollsAreBounded | internal/agentops/kafka/runtime.go:669-717 | at most 3 * limit polls and at most limit records, whatever the polls bring |
| Replay.BoundIsMet | internal/agentops/kafka/runtime.go:669-717 | some polls need exactly 3 * limit turns |
| ReplayQueue.RequestTable.Request | internal/kafsiemapi/server.go:521-544 | inserts a pending request, refused if and only if the id is taken |
| ReplayQueue.RequestTable.ClaimNext | internal/agentops/kafka/runtime.go:283-311 | claims the oldest pending request; a failed re-read lets go of it |
| ReplayQueue.RequestTable.MarkOutcome | internal/agentops/kafka/runtime.go:319-329 | marks accepted if the start went well and failed if not, or leaves the request claimed |
| ReplayQueue.RequestTable.ProcessReplayRequests | internal/agentops/kafka/runtime.go:283-330 | one turn of the loop is a run of the queue's state machine, with inserts between its transactions |
| ReplayQueue.AtMostOnce | internal/agentops/kafka/runtime.go:283-330 | under every interleaving, failure and restart: at most one start per request, statuses only advance, decided only after a start |
| ReplayQueue.ClaimsTheOldest | internal/agentops/kafka/runtime.go:292-306 | a pending request is taken by a step if and only if it is a committed claim and no pending one is older |
| ReplayQueue.FirstInFirstOut | internal/agentops/kafka/runtime.go:292-306 | if requests arrive in clock order, replays start in that order |
| ReplayQueue.AbandonedForEver | internal/agentops/kafka/runtime.go:283-330 | a claimed request out of the loop's hands stays claimed and is never started later |
| ReplayQueue.AbandonedBy | internal/agentops/kafka/runtime.go:283-330 | exactly which steps abandon a request |
| Packs.Loader.LoadPack | internal/packs/loader.go:253-356 | succeeds if and only if the declaration is fine given the types known so far; then the pack is built from it |
| Packs.Loader.AddMapLayers | internal/packs/loader.go:384-443 | refused if and only if a layer is malformed or refers to an unknown type; else sorted by id |
| Packs.Loader.AddDetectors | internal/packs/loader.go:445-482 | refused if and only if a detector has a bad id, severity or query |
| Packs.Loader.AddViews | internal/packs/loader.go:484-514 | refused if and only if a view has a bad id or an unknown type |
| Packs.Loader.AddQueries | internal/packs/loader.go:516-551 | refused if and only if a query has a bad id or text |
| Packs.Loader.MergePack | internal/packs/loader.go:358-382 | adds the pack's contents to the registry and its types to the known ones |
| Packs.LoadDir | internal/packs/loader.go:201-251 | loads all packs in the order of the directory names, or returns the empty registry; succeeds if and only if nothing is broken and the packs are loadable |
| PackLaws.LoadableIff | internal/packs/loader.go:201-356 | packs are loadable if and only if each is fine by itself, no name comes twice and references go back |
| PackContents.ValidIdIff | internal/packs/loader.go:196 | which identifiers are valid, letter by letter |
| PackContents.ReadOnlyIff | internal/packs/loader.go:607-624 | which queries are taken: a select or with, no semicolon, none of nine words that write |
| PackContents.FineAlone | internal/packs/loader.go:253-356 | what a declaration must be by itself: name, version, schema version, detectors and queries |
| PackContents.RefersToIff | internal/packs/loader.go:384-514 | what it must be given the known types: edges, views and layers |
| PackContents.BuiltFields | internal/packs/loader.go:384-551 | what a declaration is turned into, field by field, only the layers sorted |
| PackContents.RegistryHolds | internal/packs/loader.go:358-382 | the registry holds the core and then everything the packs hold, pack by pack in the order of loading, nothing lost or added |
| PackLaws.OnlyReferencesFeelOrder | internal/packs/loader.go:228-249 | loadable packs in another order are loadable if and only if references still go back |
| PackLaws.OrderCanMatter | internal/packs/loader.go:228-249 | two packs that load in one order and not in the other |
| PackLaws.SelfContainedPacksLoadAnyhow | internal/packs/loader.go:228-249 | packs that refer to the core and themselves load in any order |
| PackLaws.RegistryIsClosed | internal/packs/loader.go:201-382 | no name comes twice, each type is owned by the core or a pack, and every view, overlay and declared edge refers to allowed types |
| PackLaws.AllowsEntityType | internal/packs/loader.go:648-655 | true if and only if a type of that name is registered |

## Left out

- Kafka clients, HTTP, YAML and JSON decoding, base64, logging, LLM calls, the source registry, gap tables, dictionaries and the UI: their results come in as data.
- White space in fields: a text field of only white space is taken as empty from the start; the code tests such fields trimmed and stores NULL.
- Timestamps: a record's timestamp is a string that is not empty; that a record without one gets the time of its handling is not modelled.
- Participant lists after a re-read: `readFlows` and `readTraces` keep pointers into a growing slice (internal/agentops/store/sqlite_store.go:522-533), so `Observer.Observer.Reload` loses an arbitrary set of lists, given as input.
- GraphReader.Path: models the empty time window; with a window the query names a table alias that does not exist (internal/graph/query.go:360-371).
- GraphReader.NeighborhoodIsBall: sets of entities, and edges in table order; the sort order of the two results is not modelled.
- Edge weights, edge attributes, entity geometry; of a provenance row the stage, the policy version and the inputs, which are constants or copies of the edge.
- Topic health and poll times. `Observer.Observer.NoteReplays` stands for any update that carries no record.
- Replay.FinishReplay: the health field for the last reject, which it shares with rejected records, is not modelled.
- The start of a replay and the cut of its list to ten sessions.
- Trace and task tables: the split of traces into sub-tables follows the pattern of flows and is not repeated.
- Keyset.List: a cursor is a key or garbage; its encoding is taken as a bijection on keys whose time and id are not empty. The filter of a listing is any predicate.
- RateLimiter.Limiter.Allow: arithmetic over reals; a clock that runs backwards is not modelled.
- PointInRing.PointInRing: arithmetic over reals, coordinates as pairs; distances are not modelled.
- LineWriter.TimestampWriter.Write: the timestamps before the lines.
- Packs.LoadDir: a directory with an unreadable or undecodable file is one broken entry; report templates, descriptions and labels, which are copied unchecked, are not modelled. Error texts are not modelled, only success and failure.
- Commits of Kafka offsets by the live loop: they follow every batch and may be repeated; redelivery is an input of the runs.
- Two observers on one database: the request queue is modelled with one loop.
