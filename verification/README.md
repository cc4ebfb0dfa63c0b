# Kavora: models and proofs of the gateway's stateful algorithms

Kavora is an inference gateway: a Go gateway in front of model backends, a Rust
policy engine that inspects streamed responses, and Python sidecars and planners
around them. This project models its stateful algorithms and proves what they
keep over whole runs. Objects that change are classes whose methods are proved
against functions of their state; what the program is for is then proved about
these functions.

- **Streaming policy protocol.** `SseEvents` cuts server-sent events (WHATWG HTML
  Living Standard, sections 9.2.5 and 9.2.6) out of bytes, `StreamInspection` is
  the inspector, `EventVerdicts` says what it accepts, `PolicyChannel` is the two
  sides of the check stream, and `GatewayStream` the forwarding loop that mirrors
  the inspector's buffer.
  `MixedTerminators`, `ChunkAgreement` and `BudgetHandOver` show exactly where two
  promises end.
- **KV-cache evidence.** `KvEventAdapter` and `KvSubscriber` are the sidecar,
  `KvEventIndex` the gateway's index, `KvPipeline` the state machine of both with
  crashes, redelivery, engine restarts and other traffic; `KvMemory` and `KvRules`
  show which rules its runs need, and that they need all of them. `BlockHash` and
  `PrefixEvidence` take it to the evidence for a prompt. `Recency` and `EventIds`
  are what the caches and IDs rest on; `RouteAffinity` is the second cache.
- **Decision ledger.** `DecisionLedger`: a bounded first-in first-out map with two
  append logs, and its restore.
- **Routing.** `BackendRegistry` (weighted round robin), `RoutingPlan` (scores,
  constraints, queue veto), `PlanScores` (what decides a plan), `VetoPlans` (the
  veto's exact reach), `ForwardingList` (the list a request is tried on),
  `WorkloadSimulator`, `SimulatorPolicies`, `SimulatorReport` and `SimulatorOverlap`
  (the offline simulator). `StringOrder` is the order of IDs.
- **Rollout.** `RolloutLifecycle` (canary steps and approval) and `Experiment`
  (switchback windows, isolated pools).
- **Planning and small algorithms.** `LinearSolve` and `TtftFit` (the predictor's
  fit), `OperatingEnvelope` (Pareto front), `ToolBase64` (the tool worker's decoder).

Conventions: floats are reals, times are integers, integers are unbounded except
where wrapping or saturating is written out (the stream's sequence counters and
byte count, the registry's cursor, the base64 buffer). Locked methods are single
steps. JSON and content scanning, hashes, exponentials and sampling are function
parameters; where a hash has to be injective, a lemma says so. Library sorts are
insertion sorts with the library's order.

Where code and comments or tests elsewhere leave room, the code is followed.
Promises that the code keeps only under a condition are stated with the exact one:
chunking independence (`CutIndependentIffUnmixed`, `AgreementIff`), the combined
token budget (`CombinedBudgetIff`), exactly-once delivery (`RulesIff`,
`WindowBoundIff`, `RepeatDroppedIff`, `StoreKeepsMirrorIff`), restoring a request recorded twice
(`RecordAgainIff`, `RecordPlainAgainIff`), fairness over the cursor's wrap
(`FairTurnIff`, `FairFromEveryCursorIff`), the queue veto (`VetoHoldsIff`,
`PlanVetoIff`), the greedy choice of kv-v2 (`KvV2FastestIff`), the simulator's
concurrency limit (`OverlapBoundedIff`), the Pareto front
(`LeftOutIsDominatedIff`, `RecommendedOnFrontIff`) and a clear's reach
(`ClearRemovesIff`).

## Model

| member | source | states |
|---|---|---|
| SseEvents.CutIndependentIffUnmixed | policy-engine/src/stream.rs:195-206 | The events cut out of a byte string are the same for every chunking of it if and only if no CRLF-CRLF comes before an LF-LF in it; such bytes are called unmixed below |
| SseEvents.CutUnique | policy-engine/src/stream.rs:195-206 | For unmixed bytes there is only one way to cut complete events off the front, and the code finds it |
| SseEvents.SplitIsCut | policy-engine/src/stream.rs:195-206 | A cut loses no byte, every piece is one complete event and no complete event is left in the tail |
| SseEvents.CollectData | policy-engine/src/stream.rs:208-219 | The loop over lines collects the joined values of the data fields, with a stripped leading space and without line ends |
| SseEvents.EventDataRoundTrip | policy-engine/src/stream.rs:208-219 | Reading the data of an event written for given payload lines gives these lines back, joined by LF |
| SseEvents.EventDataIs | policy-engine/src/stream.rs:208-219 | The data of any event, told from its lines: the values of its data fields in their order, after the colon and at most one space, without the CRs at the end of the line, LF between any two and nothing else |
| StreamInspection.StreamInspector.InspectEvent | policy-engine/src/stream.rs:92-153 | Judging one event changes the semantic byte count and the done mark exactly as specified, and reports the first fault in the order of the checks |
| StreamInspection.StreamInspector.Inspect | policy-engine/src/stream.rs:48-75 | A chunk is counted, appended, and its complete events are judged in order; on a fault the inspector is terminal and releases nothing |
| StreamInspection.StreamInspector.Finish | policy-engine/src/stream.rs:77-90 | Closing releases blank leftovers after a done mark and refuses anything else that is pending |
| StreamInspection.RunIsCutAndJudge | policy-engine/src/stream.rs:48-153 | A whole run of chunks is one cut of all bytes followed by one judgement of its events |
| StreamInspection.RunIsOneShot | policy-engine/src/stream.rs:48-153 | For unmixed bytes a run terminates exactly if one delivery of all bytes would, and otherwise ends in the same state with the joined complete events released |
| StreamInspection.ChunkingIndependence | policy-engine/src/stream.rs:48-153 | Two chunkings of the same unmixed bytes agree on termination and, when neither terminates, on released bytes, pending bytes, done mark and semantic bytes |
| StreamInspection.AllowedRun | policy-engine/src/stream.rs:48-75 | While everything is allowed the byte limit and the token budget hold, released and pending bytes make up the input, and no complete event is held back |
| StreamInspection.BudgetKept | policy-engine/src/stream.rs:92-153 | No sequence of accepted events takes the response over a positive token budget |
| EventVerdicts.VerdictIff | policy-engine/src/stream.rs:92-153 | Judging events in a row ends without a fault if and only if none of them offends: each is UTF-8 with data that is empty, the done mark or clean by the scan and not too deep, no data comes after the mark, and the sizes stay in the budget; a fault is that of the first event that offends, with the code for how it does, PII and blocked content among them |
| EventVerdicts.SpotlessIs | policy-engine/src/stream.rs:92-153 | The accepted ones among the events, and the done mark and semantic bytes they leave, told from the events alone |
| EventVerdicts.AllowedIff | policy-engine/src/stream.rs:48-75 | A run of chunks is allowed if and only if the bytes fit the limits and the events cut out on the way are spotless |
| EventVerdicts.RefusedAt | policy-engine/src/stream.rs:48-75 | A refused run names the fault of the first chunk at which a limit breaks or an event offends |
| EventVerdicts.ReleaseIs | policy-engine/src/stream.rs:48-75 | A fault releases nothing and stays; otherwise what is released and what is kept make up what was there, and no complete event is kept |
| EventVerdicts.FinishIs | policy-engine/src/stream.rs:77-90 | The end is accepted if and only if a done mark was seen and only blanks are left, which are then released; otherwise nothing is |
| MixedTerminators.MixedTerminatorsDiverge | policy-engine/src/stream.rs:195-206 | With mixed terminators the verdict depends on the chunking: two events accepted one by one are refused as a single event when they arrive together |
| ChunkAgreement.AgreementIff | policy-engine/src/stream.rs:48-153 | Whole runs of all policies agree over all ways to deliver the bytes if and only if the bytes are unmixed or no policy accepts them in any chunks |
| ChunkAgreement.RefusedHoweverTheyArrive | policy-engine/src/stream.rs:92-153 | A family of the second kind: after a done mark, mixed bytes that are refused in whatever chunks they arrive |
| PolicyChannel.CheckStreamTask.Start | policy-engine/src/service.rs:109-175 | The first message is answered exactly if it is a valid open, and a task starts exactly if the request is also allowed, with a fresh inspector and the budget left for the response |
| PolicyChannel.ValidOpenIff | policy-engine/src/service.rs:109-150 | The service accepts exactly the openings a gateway sends for a request that has a name |
| PolicyChannel.CheckStreamTask.Receive | policy-engine/src/service.rs:187-253 | One message of the stream loop: the answer, the inspector state, the next expected sequence number and whether the task goes on, for open, chunk, close and out-of-order messages |
| PolicyChannel.CheckStreamTask.InboundEnds | policy-engine/src/service.rs:190-207 | When the gateway's side ends regularly the inspector is finished and its verdict sent, when it breaks off nothing is inspected; the task is over either way |
| PolicyChannel.StreamSession.OpenStream | gateway/internal/policyclient/client.go:89-127 | A session exists only for a complete request of a supporting service that the policy allows; an undisturbed opening gives the engine's own result, and the session is in sync with a fresh inspector |
| PolicyChannel.StreamSession.RoundTrip | gateway/internal/policyclient/client.go:172-184 | A delivered request of a session in sync gets the task's own answer with the matching sequence number; a failed send or lost reply is an error; any other peer's reply is accepted if and only if it has a result and names the request and its number |
| PolicyChannel.StreamSession.Check | gateway/internal/policyclient/client.go:129-147 | A successful check of a session in sync leaves both sequence counters equal and reports what the inspector did with the chunk |
| PolicyChannel.StreamSession.Close | gateway/internal/policyclient/client.go:149-170 | A successful close reports what the inspector finally releases; once the context is not cancelled the session is closed whatever is answered |
| GatewayStream.AllowedChunk | gateway/internal/gateway/server.go:663-711 | For every allowed chunk the release count never exceeds what the gateway buffers, leaves exactly what the inspector still holds, and is the size of the events the chunk completes |
| GatewayStream.ForwardStream | gateway/internal/gateway/server.go:644-763 | For every backend body, reply behaviour and write failure: the client has the backend's status with a prefix of its bytes, all of them at a clean end or after failing open unless a write failed, or nothing but the status and error that belong to the end; a broken connection comes of a failing write. Against the real task no protocol error is reachable, and the end is the verdict on a prefix of the reads, a full buffer, the first round trip that fails or the first write that fails, in that prefix's order; short of failing open what was sent is the events before a refusal, with only blanks added at a clean end |
| GatewayStream.ForwardChunk | gateway/internal/gateway/server.go:663-716 | One read, with which the buffer never holds more than its limit plus a chunk, keeps pending bytes and sequence number equal to the inspector's and the sent bytes equal to the completed events, or ends the forwarding justified |
| GatewayStream.CloseStream | gateway/internal/gateway/server.go:717-762 | At the end of the body the last release completes the response; a failed close, a refusal or anything still unreleased gives the status and error of its own, unless bytes were sent before |
| GatewayStream.SentIsAccepted | gateway/internal/gateway/server.go:644-763 | Short of failing open, what a client has is cut from the backend's bytes, every piece a complete event, and none of these offends: no invalid text, no data the scan does not call clean, nothing after a done mark; at a clean end the mark is among them |
| GatewayStream.EndIsDetermined | gateway/internal/gateway/server.go:644-763 | Policy, reads, buffer limit, failing mode and what fails decide the end and the number of checks: two forwardings that agree in these end alike |
| GatewayStream.VerdictIsDetermined | gateway/internal/gateway/server.go:644-763 | A verdict or a full buffer comes of the reads alone, whatever else fails |
| GatewayStream.UndisturbedIff | gateway/internal/gateway/server.go:644-763 | Where no round trip and no write fails the response is complete if and only if the policy allows it and the buffer holds what waits at every read, told from the bytes, the scan and the limits |
| GatewayStream.PassesIff | gateway/internal/gateway/server.go:644-763 | What a response has to be for that, without the inspector: its events spotless, a done mark among them, only blanks left over, and every read within the limits |
| GatewayStream.Copy | gateway/internal/gateway/server.go:652-658 | Copying without checks delivers a prefix of the rest of the body, all of it unless a write of the world fails |
| BudgetHandOver.CombinedBudgetIff | policy-engine/src/service.rs:174-185 | The response budget handed to the inspector keeps request estimate and response together within the token budget for every stream if and only if the estimate is below the budget; at equality the remainder 0 means unlimited |
| KvEventIndex.KvEventProvider.Observe | gateway/internal/router/cache_provider.go:192-265 | One event's effect on blocks, generations, last sequences and remembered event keys, with map and list, set and queue kept in agreement and within their bounds |
| KvEventIndex.ObservedWellFormed | gateway/internal/router/cache_provider.go:192-265 | Whatever event arrives, the index holds no key twice, at most max blocks and at most four times max distinct event keys |
| KvEventIndex.ObservedTwice | gateway/internal/router/cache_provider.go:219-240 | Whatever the index holds, an event with an ID or a sequence number has no effect when it arrives again at once |
| KvEventIndex.LastGrows | gateway/internal/router/cache_provider.go:211-240 | A backend's last sequence never goes down but by a named change of generation |
| KvEventIndex.KvEventProvider.ClearBackend | gateway/internal/router/cache_provider.go:267-275 | Deleting while ranging over the map, in any order, removes exactly the backend's prefix from map and list and keeps the order of the rest |
| KvEventIndex.ClearRemovesIff | gateway/internal/router/cache_provider.go:267-275 | A clear removes a block of another ID exactly if that ID continues the cleared one after a NUL; for IDs without NUL it removes exactly that backend's blocks |
| Recency.CompositeInjective | gateway/internal/router/cache_provider.go:245 | Backend ID and key can be told from the composite key if the IDs hold no NUL |
| Recency.NewKeyEvictsOldest | gateway/internal/router/cache_provider.go:258-264 | A new key on a full list pushes out exactly the least recently used item |
| KvEventIndex.KvEventProvider.MatchExternalPrefix | gateway/internal/router/cache_provider.go:334-368 | A prefix lookup moves the usable leading run to the front, changes nothing else, and reports its capped tokens, ratio, time and confidence |
| KvEventIndex.KvEventProvider.MatchKey | gateway/internal/router/cache_provider.go:277-332 | A single-key lookup moves a resident block to the front and reports capped tokens, staleness by age and confidence only for fresh entries |
| KvEventIndex.UsableRun | gateway/internal/router/cache_provider.go:339-351 | The run is the longest unbroken one: every block in it is resident, fresh and young enough, and the next one is not |
| KvEventIndex.PrefixEvidence | gateway/internal/router/cache_provider.go:353-367 | Reported tokens are never negative nor above the prompt, ratio and confidence lie in [0, 1], and tokens are reported exactly when the evidence is fresh |
| KvEventIndex.KeyEvidence | gateway/internal/router/cache_provider.go:296-331 | A positive confidence comes only from a resident, fresh entry within its time to live |
| KvEventIndex.KeyEvidenceIs | gateway/internal/router/cache_provider.go:296-331 | What an entry says of its key: as many tokens as its total and the prompt allow, their share of the total or else of the prompt, stale exactly beyond its time to live, confidence by its age and none unless it is fresh |
| KvEventIndex.TouchedAllFind | gateway/internal/router/cache_provider.go:339-351 | Looking up any keys changes the recency of the blocks and no block |
| KvEventIndex.LookupOrder | gateway/internal/router/cache_provider.go:339-351 | After a lookup the blocks stand in the order of their last use: what was looked up later first, then the others as they were |
| KvEventIndex.StoreOrder | gateway/internal/router/cache_provider.go:245-264 | A stored block comes first, with what the event says of it, and the others keep their order |
| EventIds.EventIdInjective | engine_events/vllm.py:156 | Generation, sequence and event index can be read back from an event ID, even if the generation holds colons |
| KvEventAdapter.VllmEventAdapter.PrepareBatch | engine_events/vllm.py:73-133 | Preparing a batch: malformed, repeat, gap with the expected number, or the numbered operations, with a new generation and a leading clear for a restarted engine |
| KvEventAdapter.PrepareIs | engine_events/vllm.py:73-133 | What becomes of a batch, told from its number, time and events: unreadable, a repeat, too early, or ready, under a new name and after a clear for a restarted engine |
| KvEventAdapter.OpsAre | engine_events/vllm.py:92-132 | Every block and every clear of the batch has its operation, with its kind, key, size and number, and there are no others |
| KvEventAdapter.VllmEventAdapter.Commit | engine_events/vllm.py:161-167 | Committing moves adapter and checkpoint together to the batch |
| KvEventAdapter.VllmEventAdapter.constructor | engine_events/vllm.py:33-52 | The checkpoint is taken over exactly if it belongs to this backend and configured generation |
| KvEventAdapter.OpsAreBatch | engine_events/vllm.py:92-132 | The numbered operations, applied one after the other, have the effect of the engine's batch: blocks, their sizes and when they were last stored |
| KvEventAdapter.BatchOpsEffect | engine_events/vllm.py:90-91 | A restart's leading clear makes the batch start from an empty cache |
| KvEventAdapter.BatchOpsIndices | engine_events/vllm.py:102-130 | No two operations of a batch share an event index, as long as no raw event carries more than a million hashes |
| KvEventAdapter.CachedIff | engine_events/vllm.py:92-132 | The engine's cache, told from the log: a key holds a block of a size and a time if and only if the last event that stores, removes or clears the key stores that block, in a batch of that time |
| KvEventAdapter.LastMillisecondIff | engine_events/vllm.py:185-188 | The instant posted for a batch is the last whole millisecond not after its timestamp |
| KvSubscriber.VllmSubscriber.Deliver | engine_events/vllm.py:216-220 | Events, fresh and stamped with the batch's time, are posted in order until one fails; only a batch whose events all went through is committed |
| KvSubscriber.VllmSubscriber.Replay | engine_events/vllm.py:222-247 | A replay succeeds if and only if it reaches back to the requested sequence and every batch is a repeat or new with all its posts going through; adapter and index are then where these batches lead, and else where the batches before the first one refused or broken off and the posts of that one before the failure lead |
| KvSubscriber.VllmSubscriber.Follow | engine_events/vllm.py:257-266 | One turn of the subscriber, posts failing anywhere: deliver, and on a gap replay from the expected number and deliver again, with the adapter and the index that result, also when the replay fails |
| KvSubscriber.FollowIsExact | engine_events/vllm.py:257-266 | From any reachable state, after a turn that delivered its batch, over a gap or not, the index holds for this backend exactly what the engine's log up to that batch leaves in its cache |
| KvSubscriber.GapIsClosedIff | engine_events/vllm.py:257-266 | After the replay for a gap the batch that came too early is ready if and only if the buffer ends just before it, a repeat if it reaches it, and a gap again if it ends earlier |
| KvSubscriber.ReplayClosesGap | engine_events/vllm.py:222-247 | A replay that reaches back to the next expected batch refuses nothing and brings the adapter to its end in the same generation |
| KvSubscriber.DeliveryIsRun | engine_events/vllm.py:216-220 | From any reachable state, receiving a batch, posting its events until one fails and committing or giving up is a stretch of the state machine that leaves index and adapter as the delivery loop does |
| KvPipeline.ExactlyOnce | engine_events/vllm.py:216-270 | For every interleaving of published batches, posts, crashes, redeliveries, engine restarts and other backends' events: after a commit of the running engine's generation the index holds for this backend exactly the fold of the log up to the committed sequence, each batch once and in order, and every entry is fresh and bears the block's size and the time it was last stored |
| KvPipeline.PartialIsPrefix | gateway/internal/router/cache_provider.go:192-265 | In the middle of a batch, crashed or not, the index holds the committed history and the operations posted so far, once each, with their sizes and times |
| KvPipeline.RunInvariant | engine_events/vllm.py:73-270 | Checkpoint, history, generations, remembered keys and index stay related in every reachable state |
| KvPipeline.RedeliveredIsSame | engine_events/vllm.py:73-133 | What is delivered again after a crash is the batch begun before, with the same event IDs |
| KvPipeline.NextIsPerformed | gateway/internal/router/cache_provider.go:219-240 | The next operation of a batch is never taken for a repeat or for late |
| KvPipeline.PostedAgain | gateway/internal/router/cache_provider.go:221-224 | An operation that was posted before leaves the index as it is |
| KvPipeline.ObservedElsewhere | gateway/internal/router/cache_provider.go:192-265 | Another backend's event leaves this backend's generation, sequence and event keys alone |
| KvPipeline.StoreKeepsMirrorIff | gateway/internal/router/cache_provider.go:253-264 | A store, of the backend itself or another, keeps what the index holds for a backend right if and only if it pushes out no entry of that backend |
| KvMemory.RepeatDroppedIff | gateway/internal/router/cache_provider.go:219-240 | A redelivered event is recognised if and only if fewer events of other backends were noted since than four times the capacity |
| KvMemory.WindowBoundIff | gateway/internal/router/cache_provider.go:228-233 | With the other rules kept, every run keeps the index exact if and only if no more events may be noted during a batch than four times the capacity; beyond that, for every capacity, a run stores a removed block again |
| KvRules.RulesIff | engine_events/vllm.py:73-270 | Every run keeps the index exact if and only if the runs are held to all of five rules: the memory bound, the first batch first, a commit before an engine restarts, a new name for it, and no entry of the backend pushed out; each rule given up admits a run that ends wrong (where no batch may note any event, only the first batch matters) |
| KvPipeline.ReusedNameIsSwallowed | gateway/internal/router/cache_provider.go:221-224 | Under a generation name used before, an event whose ID is still remembered is dropped although it is new |
| KvPipeline.LateGenerationClears | gateway/internal/router/cache_provider.go:211-224 | A late event of an old generation clears the backend and turns the generation back before it is dropped as a repeat |
| BlockHash.HashTokens | engine_events/vllm_hash.py:43-57 | The loop returns the chained key of every full block and no other |
| BlockHash.KeysShareIff | engine_events/vllm_hash.py:43-57 | With an injective hash two prompts share a key if and only if it is the same block number and they agree up to and including that block |
| PrefixEvidence.EvidenceIsExact | gateway/internal/router/cache_provider.go:334-368 | On an index that mirrors the cached prompts, n blocks of a prompt are reported if and only if some cached prompt begins with them and each was last stored at most the time to live ago |
| PrefixEvidence.EvidenceTokens | gateway/internal/router/cache_provider.go:349-355 | The reported tokens are those of the reported blocks and never more than the prompt has |
| PrefixEvidence.EvidenceIsOfLastBlock | gateway/internal/router/cache_provider.go:353-367 | The reported ratio is the reported blocks' share of the prompt, the reported time that of the last of them in the log, and the confidence that of its age; nothing is missing unless no block is reported |
| PrefixEvidence.PipelineEvidence | gateway/internal/router/cache_provider.go:334-368 | End to end from the engine's log over the pipeline to the lookup: n blocks are reported if and only if a cached prompt begins with them and the log last stored each at most the time to live ago |
| PrefixEvidence.LookupKeepsMirror | gateway/internal/router/cache_provider.go:339-351 | A lookup leaves what the index mirrors |
| RouteAffinity.Affinity.Get | gateway/internal/router/affinity.go:30-45 | A live entry is answered and becomes the most recent, an expired one is deleted and not answered |
| RouteAffinity.Affinity.Put | gateway/internal/router/affinity.go:46-63 | The entry is written in front with its expiry; a new one on a full table evicts from the back |
| RouteAffinity.Affinity.InvalidateBackend | gateway/internal/router/affinity.go:64-73 | Exactly the entries of the backend go, the others keep their order |
| RouteAffinity.TableIsLatest | gateway/internal/router/affinity.go:30-73 | In every run keys are unique, the size is bounded, and each entry held is the latest of its key; none is missing until a put has to evict |
| RouteAffinity.AnswerIsLatest | gateway/internal/router/affinity.go:30-45 | In every run an answer is the last put for tenant and key, neither invalidated nor expired, and there is one exactly then unless a put had to evict |
| RouteAffinity.InvalidatedIsGone | gateway/internal/router/affinity.go:64-73 | After an invalidation no answer names the backend until it is put again |
| RouteAffinity.OrderIsByUse | gateway/internal/router/affinity.go:38-63 | In every run the entries stand in the order of their last use, a put or an answered lookup |
| RouteAffinity.EvictedIsLeastUsed | gateway/internal/router/affinity.go:57-62 | A put pushes an entry out only if the table is full and its key new, and what goes was used before all that stays |
| DecisionLedger.RestoreIsLive | gateway/internal/router/ledger.go:115-144 | For every run over any number of lives, with fresh request IDs and no journal failure since the last restart, replaying all decisions and then all outcomes rebuilds the interleaved live ledger, evictions included, up to backends set by UpdateActual alone |
| DecisionLedger.RestoreIsExact | gateway/internal/router/ledger.go:115-144 | Without such backends the rebuilt ledger is the live one |
| DecisionLedger.RestoreIsLiveBeforeFailure | gateway/internal/router/ledger.go:146-156 | After a journal failure the restored ledger is the live one of a moment before it |
| DecisionLedger.FailedIff | gateway/internal/router/ledger.go:146-156 | In every run the journal counts as failed if and only if an append failed since the last restart |
| DecisionLedger.UniqueIsFresh | gateway/internal/router/ledger.go:146-167 | Unique request IDs are enough for the restore |
| DecisionLedger.RestoreDecision | gateway/internal/router/ledger.go:115-144 | With any journal, one more journaled decision is restored as if it were recorded after the restart in the form its journaled outcomes give it |
| DecisionLedger.RecordAgainIff | gateway/internal/router/ledger.go:115-167 | After any fresh run a further decision, of whatever content, is restored faithfully if and only if the journaled outcomes of its request leave it as it is |
| DecisionLedger.RecordPlainAgainIff | gateway/internal/router/ledger.go:115-167 | A decision that carries no outcome yet is then restored faithfully if and only if every journaled outcome of its request is blank and the last of them names the backend it carries |
| DecisionLedger.EvictKeepsNewest | gateway/internal/router/ledger.go:158-167 | Eviction keeps the newest entries in order and exactly their decisions |
| DecisionLedger.LiveWellFormed | gateway/internal/router/ledger.go:158-240 | In every run the order and the entries agree, without repeats and within the bound |
| DecisionLedger.LiveLedger.constructor | gateway/internal/router/ledger.go:115-144 | A new ledger is the replay of the two journals |
| DecisionLedger.LiveLedger.Record | gateway/internal/router/ledger.go:146-167 | A decision is journaled, then entered, unless the journal failed before |
| DecisionLedger.LiveLedger.RecordOutcome | gateway/internal/router/ledger.go:193-240 | An outcome settles its decision and is journaled only if the decision is known; what settling means is OutcomeSettles |
| DecisionLedger.OutcomeSettles | gateway/internal/router/ledger.go:193-240 | In every run a known outcome names the backend that served and, unless it says nothing, is stored as reported; a prediction error is newly set if and only if it succeeded with a positive time and some candidate is that backend, and is then measured against the first such candidate's prediction, with its version, quality and hit ratio; otherwise the earlier one stays |
| DecisionLedger.LiveLedger.Recent | gateway/internal/router/ledger.go:251-265 | The newest decisions come first, as many as asked for within the limits |
| BackendRegistry.Registry.New | gateway/internal/backend/registry.go:72-130 | The registry loads if and only if every configuration is valid and no ID repeats; each backend is entered once, healthy, with a positive weight |
| BackendRegistry.NormalizeIs | gateway/internal/backend/registry.go:94-130 | What makes a configuration bad, the first such thing being reported, and what backend a good one comes to |
| BackendRegistry.Registry.Candidates | gateway/internal/backend/registry.go:132-168 | The list is the weighted ring turned to the cursor with repeats dropped, and the cursor advances by one call, wrapping at 64 bits |
| BackendRegistry.TakeDistinct | gateway/internal/backend/registry.go:159-167 | The loop over the ring ends within one turn with every backend at its first place |
| BackendRegistry.CandidatesAreEligible | gateway/internal/backend/registry.go:132-168 | Every call returns each enabled, healthy backend that serves the model exactly once, and no other |
| BackendRegistry.WeightedFairness | gateway/internal/backend/registry.go:132-168 | Over as many consecutive calls as the weights add up to, each eligible backend comes first exactly as often as its weight says, over the cursor's wrap too if the sum divides it |
| BackendRegistry.FairTurnIff | gateway/internal/backend/registry.go:155-156 | From a given cursor, with any weights, a turn over the cursor's wrap gives each backend its weight if and only if the places lost at the wrap and those taken instead hold the same backends |
| BackendRegistry.FairFromEveryCursorIff | gateway/internal/backend/registry.go:155-156 | With any weights, every turn from every cursor is fair if and only if the weights' sum divides the wrap or only one backend is eligible |
| BackendRegistry.DistinctFairTurnIff | gateway/internal/backend/registry.go:155-156 | With weights of one, a turn is fair if and only if it does not cross the wrap or its size divides the wrap |
| BackendRegistry.Registry.MarkFailure | gateway/internal/backend/registry.go:178-184 | A failed backend is unhealthy, the others unchanged |
| BackendRegistry.Registry.MarkSuccess | gateway/internal/backend/registry.go:186-192 | A recovered backend is healthy, the others unchanged |
| RoutingPlan.Plan | gateway/internal/router/controller.go:198-370 | Mode resolution, hard constraints, scores, veto, ranking and choice together give the specified decision |
| RoutingPlan.ApplyQueueVeto | gateway/internal/router/controller.go:372-395 | In place, each eligible candidate whose queue penalty over the shortest eligible queue exceeds its cache benefit loses the veto amount |
| RoutingPlan.RankedIs | gateway/internal/router/kvaware.go:178-188 | The ranking keeps every candidate and puts none behind one that is ahead of it |
| StringOrder.BelowIff | gateway/internal/router/kvaware.go:183-185 | One ID is below another if and only if it is a proper prefix or smaller at the first difference |
| RoutingPlan.PlacementIsSafe | gateway/internal/router/controller.go:272-366 | A selected backend lies in the experiment's pool, meets every requirement, has the best score with the smaller ID at ties, and rests on evidence that is not void |
| PlanScores.SelectedIs | gateway/internal/router/controller.go:336-366 | In every plan the selected backend is the eligible one that outdoes all others: trust times 100 of match ratio less 8 of queue, 35 of pressure and 60 of risk, a million less where kv-v2 vetoes, then by ID; trust is the cache's confidence, or under load-aware the state's and at least a hundredth; it is selected if and only if that evidence is not void and the mode steers, and the outcome says which |
| PlanScores.DifferencesDecide | gateway/internal/router/controller.go:332 | Between two equally trusted backends 100 times the difference in match ratio less 8, 35 and 60 times those in queue, pressure and risk decides, at zero the smaller ID |
| PlanScores.ScoreIsWeight | gateway/internal/router/controller.go:328-338 | The score of every eligible candidate is that weight, and it is vetoed if and only if some eligible backend's queue is so much shorter that the difference costs more than the cached tokens save |
| PlanScores.CandidatesInOrder | gateway/internal/router/kvaware.go:178-188 | The candidates of a plan come with the eligible ones first, then the heavier, then by ID |
| PlanScores.CandidatesAreMeasured | gateway/internal/router/controller.go:290-333 | Every eligible candidate has the queue, pressure, rate, confidence and predictor measured and configured for a backend of the list, every eligible backend has one, and nothing is measured of the others |
| PlanScores.ModeIs | gateway/internal/router/controller.go:198-243 | The policy of an experiment decides the mode, else the stage of the lifecycle, else the setting; nothing is enforced that steers nothing or that the lifecycle holds back |
| PlanScores.PredictIs | gateway/internal/router/controller.go:58-66 | Where it is not clipped at zero the prediction is the idle cost, the tokens by kind, waiting and pressure |
| PlanScores.CachedIsFasterIff | gateway/internal/router/controller.go:58-66 | More cached tokens make the answer faster if and only if a cached token costs less than one to be worked off |
| PlanScores.LoadIsSlower | gateway/internal/router/controller.go:58-66 | A longer queue or a higher pressure never makes it faster |
| PlanScores.ViolationIs | gateway/internal/router/controller.go:68-77 | The risk is zero without an objective, and else read off the curve in units of the predictor's scale |
| RoutingPlan.CandidatesDescribeBackends | gateway/internal/router/controller.go:272-289 | A candidate is eligible if and only if its backend meets pool and requirements |
| RoutingPlan.VetoHoldsIff | gateway/internal/router/controller.go:372-395 | With measurements in their ranges, a vetoed candidate is never selected if and only if eight times the shortest queue plus 95 is at most 1,000,000 |
| RoutingPlan.PlanKeepsVeto | gateway/internal/router/controller.go:336-366 | Under kv-v2 a plan with one eligible queue that short never selects a vetoed backend |
| VetoPlans.PlanVetoIff | gateway/internal/router/controller.go:198-395 | For whole plans under kv-v2 on measurements in their ranges the same bound on the shortest eligible queue is exact: beyond it two backends can be set up of which the vetoed one is selected |
| ForwardingList.KeepEligible | gateway/internal/gateway/server.go:609-621 | In place, the front of the list becomes the eligible backends in their order |
| ForwardingList.PreferredIds | gateway/internal/router/controller.go:451-459 | Only an enforced selection that is no fallback is preferred, and its affinity is renewed |
| ForwardingList.BackendCandidates | gateway/internal/gateway/server.go:591-642 | From registry and router to the list of backends to try, with the step of the registry's cursor and the renewal of the tenant's affinity |
| ForwardingList.ForwardedIsPermutation | gateway/internal/gateway/server.go:609-641 | The list is a permutation of the eligible candidates, headed by an enforced selection |
| ForwardingList.ForwardedInOrder | gateway/internal/gateway/server.go:609-641 | The eligible candidates stay in the registry's order but for an enforced selection that is no fallback, which comes first; a shadowed one moves nothing |
| ForwardingList.ForwardedIff | gateway/internal/gateway/server.go:591-642 | A backend is on the list, once, if and only if it is enabled, healthy, serves the model, lies in the pool and meets the requirements |
| RolloutLifecycle.Lifecycle.New | gateway/internal/router/lifecycle.go:77-99 | A lifecycle is created if and only if the canary steps are strictly increasing in (0, 1], defaults filled in |
| RolloutLifecycle.Lifecycle.Observe | gateway/internal/router/lifecycle.go:139-186 | One observation's effect on stage, step, reason and approval, gate by gate |
| RolloutLifecycle.Lifecycle.Approve | gateway/internal/router/lifecycle.go:125-132 | An approval counts in shadow only, with a name and when one is required |
| RolloutLifecycle.Lifecycle.Enforces | gateway/internal/router/lifecycle.go:134-137 | A request is enforced by stage or by its sample below the canary fraction |
| RolloutLifecycle.ObservationMoves | gateway/internal/router/lifecycle.go:139-186 | A damning observation throws the rollout back to static and voids the approval, one on too few requests or while a human is waited for moves nothing, any other takes it up one rung until it is enforced |
| RolloutLifecycle.JudgeIs | gateway/internal/router/lifecycle.go:146-167 | Told from measurements and gates: which observations fail and for which reason, which are too few, which pass |
| RolloutLifecycle.NoWorsePasses | gateway/internal/router/lifecycle.go:146-167 | Doing no worse in any measure never turns a pass into anything else |
| RolloutLifecycle.EnforcedByStage | gateway/internal/router/lifecycle.go:134-137 | At a canary step exactly the requests are enforced whose sample is below its fraction; before that none, after it all |
| RolloutLifecycle.StepInRange | gateway/internal/router/lifecycle.go:139-186 | In every run the canary step is a configured one |
| RolloutLifecycle.ApprovalIff | gateway/internal/router/lifecycle.go:125-186 | In every run an approval is on record if and only if someone approved in shadow and the rollout was never static since |
| RolloutLifecycle.EnforcedNeedsApproval | gateway/internal/router/lifecycle.go:168-185 | No canary or enforced state without such an approval, where one is required |
| RolloutLifecycle.EnforcedNeedsPasses | gateway/internal/router/lifecycle.go:139-186 | An enforced state has at least two more passing observations behind it than there are canary steps, and no failing one between; an enabled lifecycle starts one up |
| RolloutLifecycle.RankIsPasses | gateway/internal/router/lifecycle.go:139-186 | Without required approval the climb is exactly one rung per passing observation |
| RolloutLifecycle.EnforcedSetGrows | gateway/internal/router/lifecycle.go:134-186 | A request once enforced stays enforced until the rollout falls to static |
| Experiment.New | gateway/internal/experiment/controller.go:82-145 | A configuration is accepted if and only if fields, policies, probability, windows, pools and duration are valid; the controller has the configured lengths and the default probability filled in |
| Experiment.WindowSharesArm | gateway/internal/experiment/controller.go:156-172 | All requests of one window get the same policy, pool and label, drawn once for the window |
| Experiment.RequestKeepsArm | gateway/internal/experiment/controller.go:173-177 | With isolated pools the request ID alone decides the arm, whenever the request comes |
| Experiment.PoolsSameOrApart | gateway/internal/experiment/controller.go:113-131 | Two requests of isolated pools share all their backends or none |
| Experiment.ActiveIff | gateway/internal/experiment/controller.go:147-156 | Assignment is active exactly between start and end; outside everyone gets the control arm |
| Experiment.WindowLabelIs | gateway/internal/experiment/controller.go:169 | Different windows have different labels, each with its number in at least six digits |
| Experiment.CarryOverSeparation | gateway/internal/experiment/controller.go:162-172 | Unguarded requests of different windows are more than warm-up plus cool-down apart |
| Experiment.UnguardedOffsets | gateway/internal/experiment/controller.go:107-109 | Every full window has window minus warm-up minus cool-down unguarded offsets, a positive number |
| Experiment.UnguardedMoment | gateway/internal/experiment/controller.go:162-171 | Every window has a moment of each unguarded offset, and a request then is unguarded while the experiment is active |
| WorkloadSimulator.Simulate | gateway/internal/workloadreplay/simulator.go:200-275 | The loop over the trace ends in the state specified step by step |
| WorkloadSimulator.RetainAfter | gateway/internal/workloadreplay/simulator.go:292-300 | In place, the front of the list becomes the later finishing times in their order |
| WorkloadSimulator.AdmitLeavesSlot | gateway/internal/workloadreplay/simulator.go:212-219 | Admission leaves a slot free, is never before the arrival, and is later only if all slots were taken and then at the first one freed |
| WorkloadSimulator.LeastIs | gateway/internal/workloadreplay/simulator.go:302-310 | The chosen backend is free no later than any other |
| WorkloadSimulator.KvV2FastestIff | gateway/internal/workloadreplay/simulator.go:220-248 | Policy kv-v2 picks a backend with the shortest time to first token if and only if the gate is open, there is no owner, the owner is the one free first, or its queue is longer by at least the cache benefit |
| WorkloadSimulator.ServicesDoNotOverlap | gateway/internal/workloadreplay/simulator.go:242-250 | For every trace and policy, services on one backend never overlap |
| WorkloadSimulator.AvailableGrows | gateway/internal/workloadreplay/simulator.go:250 | For every trace and policy, the time a backend is free never decreases |
| WorkloadSimulator.Accounts | gateway/internal/workloadreplay/simulator.go:200-275 | After every trace: slots within the limit, each request routed once, reused within shared tokens, violations counted right, the finish that of the last backend |
| SimulatorPolicies.RequestGoes | gateway/internal/workloadreplay/simulator.go:220-241 | Where every request of every trace goes: in turn; to the backend free first, the lowest of these; under kv-v1 after its prefix whenever the gate is open; under kv-v2 so too, unless it would wait longer there than the prefix saves |
| SimulatorPolicies.OwnerIsLast | gateway/internal/workloadreplay/simulator.go:222-259 | The owner of a prefix is the backend that served the last request with it |
| SimulatorPolicies.KvV1ReusesAll | gateway/internal/workloadreplay/simulator.go:226-248 | With the gate open kv-v1 reuses the whole prefix |
| SimulatorPolicies.RoundRobinIsEven | gateway/internal/workloadreplay/simulator.go:220 | In turn, no backend gets two requests more than another |
| SimulatorPolicies.ServiceIs | gateway/internal/workloadreplay/simulator.go:242-264 | When a service starts, its time to first token, its end, and what the accounts add for it, told from wait, reuse and rates |
| SimulatorPolicies.FreeSinceIs | gateway/internal/workloadreplay/simulator.go:250 | A backend is free when the last service there has ended |
| SimulatorReport.ReportIs | gateway/internal/workloadreplay/simulator.go:266-275 | The report's figures: the interpolated 95th percentile, requests per second over at least a millisecond, the share that missed the objective, the share of shared tokens reused |
| SimulatorReport.PercentileIs | gateway/internal/workloadreplay/simulator.go:312-325 | A percentile lies, in the ascending order of the values, at that share of the way from the first to the last |
| SimulatorReport.ImbalanceIs | gateway/internal/workloadreplay/simulator.go:327-342 | The imbalance is the standard deviation of the routes in units of their mean |
| WorkloadSimulator.ReportIsSane | gateway/internal/workloadreplay/simulator.go:266-275 | The reported rates are shares, fewer requests than a twentieth, and one, took longer than the reported 95th percentile, and the imbalance is zero exactly if all backends got equally many requests |
| WorkloadSimulator.ImbalanceZeroIff | gateway/internal/workloadreplay/simulator.go:327-342 | The coefficient of variation is never negative, and zero if and only if all counts are equal |
| WorkloadSimulator.PercentileSplits | gateway/internal/workloadreplay/simulator.go:312-325 | A percentile lies within the values, and fewer of them exceed it than the remaining share, by one place |
| SimulatorOverlap.OverlapBoundedIff | gateway/internal/workloadreplay/simulator.go:200-265 | At every moment of a simulation at most the configured number of requests runs, if and only if no request is admitted earlier than the one before it |
| SimulatorOverlap.AdmittedBackIff | gateway/internal/workloadreplay/simulator.go:212-219 | A request is admitted before its predecessor if and only if it arrives while that one still waits and the wait frees more than one slot |
| SimulatorOverlap.TieExceedsLimit | gateway/internal/workloadreplay/simulator.go:212-219 | Two requests that end together let three run on two slots |
| LinearSolve.Solve | planner/ttft_predictor.py:40-58 | A returned vector is the only solution of the system over the reals; a refusal comes with a vector, one in the stuck column and zero after it, that every row of the given matrix cancels to within the threshold |
| LinearSolve.RefusalIsNearlySingular | planner/ttft_predictor.py:45-46 | Whatever the reduced rows lost on the way, what the rows from the stuck column on nearly cancel the original rows do too |
| LinearSolve.FindPivot | planner/ttft_predictor.py:44 | The pivot row has the largest absolute value of the column, the first of these |
| LinearSolve.EliminateColumn | planner/ttft_predictor.py:49-57 | Eliminating a column keeps the solution set and makes one more unit column |
| LinearSolve.NoPivotNotUnique | planner/ttft_predictor.py:45-46 | Without any pivot in the column no solution is the only one |
| TtftFit.NormalMatrix | planner/ttft_predictor.py:62-71 | The accumulation loops build the normal equations with ridge on the slopes only |
| TtftFit.SolutionMinimises | planner/ttft_predictor.py:61-72 | A solution of the normal equations minimises squared error plus ridge times the squared slopes over all models |
| TtftFit.Fit | planner/ttft_predictor.py:61-79 | When the fit succeeds its coefficients before clamping are the only solution and a global minimum, each slope of the result is the non-negative value nearest to its coefficient, and no other non-negative intercept has a smaller squared error for these slopes; each error says what is wrong with the samples, a singular design that some change of the model, by one in a coefficient, is hardly seen by the objective |
| TtftFit.SingularIsHardlySeen | planner/ttft_predictor.py:40-72 | Along the vector of a refusal the squared changes of the predictions, plus ridge times the squared slopes, are at most the threshold times its absolute sum |
| TtftFit.ClampedModelIntercept | planner/ttft_predictor.py:73-79 | For the clamped slopes no other non-negative intercept has a smaller squared error |
| TtftFit.ModelIsNearest | planner/ttft_predictor.py:73-79 | Clamping takes each slope to the nearest non-negative value |
| TtftFit.InterceptIsBest | planner/ttft_predictor.py:73-79 | The intercept is the non-negative one of least squared error, told by comparing errors |
| TtftFit.ExactModelRecovered | planner/ttft_predictor.py:61-79 | A non-negative model that explains the samples exactly is what a fit without ridge returns |
| TtftFit.NoSamplesSingular | planner/ttft_predictor.py:61-72 | Without samples the system has no unique solution |
| ToolBase64.Decode | policy-engine/src/bin/kavora-tool-worker.rs:150-173 | The decoder accepts exactly the inputs whose characters before the first padding are in the alphabet, and its buffer never overflows 32 bits |
| ToolBase64.TakeAllAmounts | policy-engine/src/bin/kavora-tool-worker.rs:150-173 | The bytes decoded are, as a big-endian number, that of the digits without the bits left over, which are fewer than eight |
| ToolBase64.RoundTrip | policy-engine/src/bin/kavora-tool-worker.rs:150-173 | Decoding the padded encoding of section 4 of RFC 4648 gives every byte string back |
| ToolBase64.UnpaddedRoundTrip | policy-engine/src/bin/kavora-tool-worker.rs:150-173 | So does decoding the encoding without padding |
| ToolBase64.DecodeCharacters | policy-engine/src/bin/kavora-tool-worker.rs:161 | Whatever follows the first padding character is ignored |
| OperatingEnvelope.Recommend | planner/operating_envelope.py:41-138 | The loops select the feasible points, the best of them and the Pareto front |
| OperatingEnvelope.FeasibleIff | planner/operating_envelope.py:59-73 | A point is feasible if and only if its goodput and latency were measured on good evidence and latency, success rate and resource are within the limits |
| OperatingEnvelope.RecommendedIs | planner/operating_envelope.py:88-97 | Something is recommended exactly if a point is within the limits, and it is one to which none of those is preferred by goodput bound, mean and concurrency |
| OperatingEnvelope.OnFrontIff | planner/operating_envelope.py:102-123 | On the front are exactly the points within the limits that none of those outclasses |
| OperatingEnvelope.BestFirstIs | planner/operating_envelope.py:88-96 | The sort keeps every feasible point and puts none behind a worse one |
| OperatingEnvelope.FrontNotEmpty | planner/operating_envelope.py:102-123 | The front is empty only if nothing is feasible, whatever resources are missing |
| OperatingEnvelope.LeftOutIsDominatedIff | planner/operating_envelope.py:102-123 | With any resources missing, every point left out is dominated by one on the front if and only if each missing one that is better than a measured point is matched by a point as good that costs no more than that one, or by a missing one with the highest bound |
| OperatingEnvelope.LeftOutIsDominated | planner/operating_envelope.py:102-123 | With all resources measured that is always so |
| OperatingEnvelope.LeftOutByMissingResource | planner/operating_envelope.py:102-123 | A witness of the other case: three points of which one is left out and dominated by none on the front |
| OperatingEnvelope.RecommendedOnFrontIff | planner/operating_envelope.py:88-123 | The recommended point has the highest bound, and is on the front if and only if no point with the same bound is known to be cheaper |

## Left out

- Transport and formats: HTTP, gRPC, ZeroMQ, Unix sockets, files, JSON, YAML and MessagePack decoding; the backend's chunks, the fate of each round trip and each write are parameters.
- Concurrency below a lock: goroutines, async tasks and context cancellation inside a step.
- Rounding: floats are reals, so nothing is said about NaN, infinities or accumulated error; the square root in the simulator's report is a parameter.
- Regular expressions and PII rules of the event scan: one parameter gives the verdict of an event's text, and JSON depth and content length are parameters too.
- The journal's files: they are two append logs, an append either succeeds or fails, and a torn line is not modelled. The prediction-quality report over the ledger is left out.
- The checkpoint file is replaced as a whole; a crash inside the write of the temporary file leaves the old one.
- Restart of the gateway process: its index is in memory and starts empty, and nothing in the code resends the log.
- KvPipeline.ExactlyOnce: assumes what the code cannot check. The five rules of its runs are exactly what it takes, as `RulesIff` shows: an adapter without a last sequence accepts any number, so a lost first batch is not noticed; an engine that restarts before a commit, or twice within a millisecond, goes by an old name; remembered keys and entries are bounded. Besides, timestamps do not decrease within one engine and raw events carry at most a million hashes. `ReusedNameIsSwallowed` and `LateGenerationClears` show single events that go wrong.
- KvSubscriber.VllmSubscriber.Replay: the replay buffer is a stretch of consecutive batches, as the engine keeps it; a response with numbers in another order is not modelled.
- KvPipeline.PartialIsPrefix: says nothing of a restart of which no event was posted yet, since the index may then hold part of an abandoned restart.
- GatewayStream.ForwardStream: the justified part is for fewer than 2^64 messages, as the gateway's counter wraps and the engine's saturates.
- BackendRegistry.WeightedFairness: for consecutive calls for one model; the cursor is shared, so interleaved models share its turns.
- RouteAffinity.AnswerIsLatest: after an eviction only soundness is stated, because which older entries survive depends on the whole recency order.
- OperatingEnvelope.LeftOutIsDominated: needs all resources measured; `LeftOutIsDominatedIff` decides every list.
- WorkloadSimulator.Accounts: bounds the slot list; true overlap of services can exceed it, as decided by `OverlapBoundedIff`.
- The recommended point's safety factor, the report texts, policy comparison and recommendation labels of the simulator.
- RoutingPlan.Plan: the decision's bookkeeping is left out, namely its record in the ledger, predictor version labels, explanation texts and experiment fields copied into it.
- Trimming of blanks around configured IDs, models and attributes: they are taken as trimmed. Filling in the simulator's default configuration is left out; its trace and configuration are the ones its validation accepts.
- The older Decide path, the shadow and load-aware evaluators, the affinity and shadow-index evidence providers: subsets of what Plan does.
- Tenant limits, the agent loop, metric counters, exporters, adapters and the web interface: they would only add easy members.
- Base64: the model follows the decoder in accepting missing padding, non-zero left-over bits and anything after the first padding character.
