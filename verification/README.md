# A verified model of TraceIQ's stateful core

TraceIQ is a tracing pipeline: spans are queued, assembled into traces, judged by a keep policy
and handed to a tiered store, while topology, anomaly, root-cause and remediation components feed
on the same stream. This project models the components whose behaviour depends on state that
builds up over time, and proves what holds over every input, every run or every interleaving.

| module | models |
|---|---|
| `PathSignature` | the span forest built from an unordered buffer, and the hash fed by its walk |
| `P2Quantiles`, `QuantileDigest`, `SortedValues` | the five-marker streaming quantiles and the bounded sorted-value digest |
| `Sharding`, `RedMetrics`, `TraceAssembly` | rendezvous routing, the RED accumulator, and the sharded buffers with their journal |
| `TraceTimes` | when a trace is given up, told from the times its spans were accepted |
| `OverlappedAssembly` | a Consume and a Tick that overlap on one shard: buffers, journal, and when they agree |
| `StoreBridge`, `IngestQueue` | the two concurrent hand-offs, as interleaved steps with an explicit shutdown |
| `Pipeline` | shards, keep policy and store bridge in one run, from accepted span to stored trace |
| `CostController` | one tick of the storage budget controller and the loop it closes |
| `TopologyWalks`, `EdgeTable`, `LiveTopology` | breadth-first queries, the capped edge table, span pairing |
| `EdgeHistory`, `GraphCalls` | what a live edge sums up, and which calls a batch of spans counts |
| `TokenBucket`, `KeepPolicy`, `KeepPolicyRuns` | token buckets, one keep decision, and runs of decisions |
| `RemediationGuard`, `GuardSafety`, `AuditChain` | the action state machine, its safety over runs, and the per-tenant hash chains |
| `InvestigationLoop`, `RuleReasoner` | the root-cause loop with its budgets and replay, and the rules reasoner |
| `IncidentGrouper`, `IncidentHistory` | the service index, the choice of incident, the cap on open incidents, and what an incident tells of its events |
| `EditDistance` | the two-row edit distance and the catalog scan |

Each component that changes state in the source is a class whose methods are proved equal to a
function (or contained in a relation) on a value that stands for its state; the lemmas are about
that function. Floating-point values are reals, times are integer nanoseconds, channels are
bounded sequences, and the order in which a map yields its keys is a nondeterministic choice.
Hashes are function parameters; a theorem that needs a hash not to collide says so. `hide`
statements only keep definitions a proof does not need out of the solver's way.

## Where the code and its documentation differ

The model follows the code. The member named with each difference is the one that shows it.

- Distinct span ids are what bounds the signature walk: it ends if and only if no nest of calls
  meets an id twice (`PathSignature.WalkEndsExactly`, with an endless example in
  `PathSignature.DuplicateIdsNeverReturn`). Assembly, the only caller, drops repeated ids, so its
  buffers meet the condition (`TraceAssembly.ConsumeKeepsConsistent`).
- The comment on the walk says orphan subtrees follow the rooted tree; the code sorts roots and
  orphans together by (start, id), so orphans come last exactly when each of them sorts after each
  root (`PathSignature.OrphansLastExactly`, `PathSignature.EarlyOrphanFirst`).
- Merging streaming quantiles is safe only when one side is empty or both are warm. Any other
  merge can report outside the observations or index out of range later: two streams of two
  observations merge into a slot that panics on the next one (`P2Quantiles.MergeSafeExactly`,
  `P2Quantiles.BuildSafeExactly`, `P2Quantiles.TwoAndTwoPanics`).
- Every downsampling of the digest drops the last position of the sorted values, and a compression
  of zero or less lifts the size bound: the constructor replaces such a value, a restored snapshot
  keeps it (`QuantileDigest.CompressShape`, `QuantileDigest.SizeBoundedExactly`).
- Merging a digest into itself ranges over the slice it inserts into, so with room to spare in
  that slice it repeats the least value (`QuantileDigest.SelfMergeDoublesExactly`).
- The cost controller is described as stepping by 0.5x or 2x; it multiplies by 0.5 or 1.5
  (`CostController.TieredStore.EmitCostSignal`). It misses its settling target exactly when the
  bytes observed at the lowest floor lie between 23/30 and 17/20 of the budget; there it
  alternates for ever (`CostController.SettlesExactly`, `CostController.FloorAlternates`).
- A Consume journals a span after releasing the shard's lock, and a Tick truncates a journal long
  after taking the trace out under that lock, so the two calls that run side by side can leave the
  journal different from the buffers. An append after its own trace was truncated stays behind and
  a replay brings the finalized trace back (`OverlappedAssembly.LateAppendOrphans`); an append to a
  successor before the truncate of the trace before it is forgotten, and a replay loses an accepted
  span (`OverlappedAssembly.EarlyAppendForgets`). These are the only ways, and each is made good by
  a later truncate or take-out of the key (`OverlappedAssembly.AgreesExactly`). No overlap loses or
  doubles a span in memory (`OverlappedAssembly.AlwaysBalanced`).
- RED accumulation is described as called for every span, duplicates included; assembly drops a
  duplicate first (`TraceAssembly.Manager.ConsumeSpan`).
- Not every edit of a stored audit field breaks the chain. It is noticed only if some covered entry
  then no longer hashes, from the stored hash before it, to its own (`AuditChain.VerifyExactly`).
  So the stored previous hash can be overwritten (`AuditChain.PrevHashUnseen`), and bytes can move
  across a field boundary (`AuditChain.ShiftedBoundaryUnseen`), each unseen. A tenant's last entry
  given to another tenant is unseen by the verification of the tenant that lost it
  (`AuditChain.RelabelledLastUnseen`); that of the tenant that receives it accepts exactly when
  every entry linked anew hashes from what it now follows (`AuditChain.ReceiverAcceptsExactly`).
- A proposal's idempotency record is made of the proposal as stamped, so the same request sent
  twice is refused as a reuse instead of answered, always so when it carries no id, as the HTTP
  handler's does (`GuardSafety.SameProposalRefused`, `GuardSafety.RepeatWithoutIdRefused`).
- Separation of duty is between the approver and the proposer a request names: a submitter who
  names someone else can approve the action. The HTTP handler names the submitter
  (`GuardSafety.SubmitterNeverApproves`, `GuardSafety.SubmitterApprovesExactly`).
- A catalog entry with an empty name, if it is the first at the least distance, hides the matches
  after it (`EditDistance.MatchService`, `EditDistance.NamelessEntryHidesMatch`).
- At the edge cap a new edge evicts itself unless some edge was never called, or was called once
  and no later than now (`EdgeTable.NewcomerSurvivesExactly`). Eviction is described as bounding the
  times of last sighting too; the time of an edge that evicts itself is written after its eviction,
  so those times outgrow any cap (`EdgeTable.TracksExactly`, `EdgeTable.TimesOutgrowCap`).
- Any reasoner can be set as the fallback, but an investigation ends in every environment only if
  no LLM can be followed by an LLM; otherwise it can swap reasoners for ever without spending a
  step (`InvestigationLoop.EndsExactly`, `InvestigationLoop.LLMFallbackSpins`).
- A ring that names an owner beyond the shards separates the journal from the buffers, and an empty
  ring makes the shard index negative (`TraceAssembly.AcceptAgreesExactly`).

## Model

| member | source | states |
|---|---|---|
| `PathSignature.ChainFits` | internal/sampler/spanutil.go:141-157 | with distinct span ids no ancestor chain is longer than the buffer, whatever parent cycles the other spans form; this bounds the recursion of the walk |
| `PathSignature.ForestIsAllChains` | internal/sampler/spanutil.go:110-162 | the walk lists exactly the ancestor chains that start at a root or dangling parent, each once, in pre-order of (start, id) |
| `PathSignature.OrphansLastExactly` | internal/sampler/spanutil.go:103-138 | the orphan subtrees come after the rooted ones, as the comment says, if and only if each span with a dangling parent sorts after each root |
| `PathSignature.EarlyOrphanFirst` | internal/sampler/spanutil.go:103-138 | two spans whose walk lists the orphan before the root |
| `PathSignature.VisitsAnchoredOnce` | internal/sampler/spanutil.go:110-162 | a span is visited if and only if its ancestor chain reaches a root or dangling parent, and never twice |
| `PathSignature.SortedUnique` | internal/sampler/spanutil.go:129-136 | any ordered arrangement of a sibling set is the same list, so the sorting algorithm does not matter |
| `PathSignature.LinkSpans` | internal/sampler/spanutil.go:115-128 | the loops split the buffer into its roots and dangling spans and the children of every other span |
| `PathSignature.Visit` | internal/sampler/spanutil.go:141-157 | the recursive visit feeds the hash exactly the edges of the walk below the span, and ends; BytesTellEdges says what an edge feeds |
| `PathSignature.ComputePathSignature` | internal/sampler/spanutil.go:110-162 | the signature is the hash of the bytes of the whole forest walk, for any buffer with distinct ids |
| `PathSignature.BytesTellEdges` | internal/sampler/spanutil.go:140-160 | where no service or operation contains a NUL, two forests feed the hash the same bytes if and only if they have the same calls in the same order, each with the caller's and the callee's service and operation |
| `PathSignature.OrderIsOneNumber` | internal/sampler/spanutil.go:129-136 | the sibling order is that of start and identifier read as one number |
| `PathSignature.SignatureIgnoresBufferOrder` | internal/sampler/spanutil.go:110-162 | buffers holding the same spans in any order hash the same bytes |
| `PathSignature.DuplicateIdsNeverReturn` | internal/sampler/spanutil.go:141-157 | three concrete spans with a repeated id on which the recursion exceeds every depth |
| `PathSignature.WalkEndsExactly` | internal/sampler/spanutil.go:110-162 | for any buffer, repeated ids included, the depth of the walk is bounded if and only if no nest of calls from a root or dangling span meets an id twice |
| `P2Quantiles.ParabolicInterpolates` | internal/anomaly/quantile.go:89-94 | the parabolic prediction is the value, one position on, of the quadratic through the three markers |
| `P2Quantiles.LinearBetween` | internal/anomaly/quantile.go:96-99 | the linear fallback stays between the two neighbouring heights |
| `P2Quantiles.AdjustKeepsTight` | internal/anomaly/quantile.go:70-85 | an adjustment keeps heights non-decreasing and positions strictly increasing integers, and never moves the end markers |
| `P2Quantiles.AdjustSteps` | internal/anomaly/quantile.go:70-99 | an inner marker moves one position toward its desired one exactly when that is at least one away and the next marker on that side more than one; its height becomes that of the parabola through the three markers where strictly between the neighbours', else that of the chord to the next marker; nothing else changes |
| `P2Quantiles.AdjustToSteps` | internal/anomaly/quantile.go:70-85 | the three inner markers take that step in turn, each seeing its neighbour's new place |
| `P2Quantiles.AbsorbMoves` | internal/anomaly/quantile.go:45-66 | an observation extends the extremes and moves up exactly the last marker and the inner ones above it |
| `P2Quantiles.SampleSteps` | internal/anomaly/quantile.go:29-87 | the whole state after an observation of a warm slot: absorbed, desired positions moved by 0, p/2, p, (1+p)/2 and 1, inner markers stepped in turn |
| `P2Quantiles.FifthSample` | internal/anomaly/quantile.go:29-43 | the fifth observation leaves the five values in order at positions 1 to 5 with the desired positions of five observations |
| `P2Quantiles.AdvanceStaysOnLines` | internal/anomaly/quantile.go:67-69 | the desired positions stay on their ideal lines 1 + (count - 1) * increment |
| `P2Quantiles.StreamInvariant` | internal/anomaly/quantile.go:29-87 | after any sequence of observations: ordered heights, integer positions from 1 to the count, desired positions on their lines, and the true extremes at the ends |
| `P2Quantiles.ReportWithinObservations` | internal/anomaly/quantile.go:117-165 | over any tree of observations and merges of warmed-up estimators, every reported quantile lies between the least and greatest observation |
| `P2Quantiles.MergeSafeExactly` | internal/anomaly/quantile.go:142-165 | merging streams of n and m observations never panics later and reports within the observations, whatever is observed before and after, if and only if one is empty or both have at least five |
| `P2Quantiles.BuildSafeExactly` | internal/anomaly/quantile.go:29-165 | a tree of observations and merges is safe at every stage for every choice of values if and only if each of its merges joins two warm estimators or involves an empty one |
| `P2Quantiles.TwoAndTwoPanics` | internal/anomaly/quantile.go:29-43 | two streams of two observations merge into a slot that counts four with two values stored, and the next observation reads out of range |
| `P2Quantiles.NearestQuantileIndex` | internal/anomaly/quantile.go:102-115 | the scan picks the first of the nearest tracked levels, and slot 0 when none is within 1 |
| `P2Quantiles.P2Estimator.AddOne` | internal/anomaly/quantile.go:29-87 | the in-place update of one tracked level panics exactly when it is the fifth observation and fewer than four values are stored, and is otherwise AddSample, which SampleSteps and FifthSample describe; the other levels are left alone |
| `P2Quantiles.P2Estimator.Merge` | internal/anomaly/quantile.go:142-165 | merging replaces or averages each level in place as the source does |
| `P2Quantiles.MergeWeighs` | internal/anomaly/quantile.go:142-165 | merging two non-empty slots adds the counts and weighs each marker's heights by them |
| `P2Quantiles.ReportsTheLevel` | internal/anomaly/quantile.go:117-139 | a warm stream is reported by the marker whose desired position is that of the tracked level |
| `QuantileDigest.CompressShape` | internal/anomaly/quantile.go:269-280 | one compress of n values keeps a sorted subsequence of exactly 20 * compression of them, with the first position and without the last |
| `QuantileDigest.CompressRankLoss` | internal/anomaly/quantile.go:269-294 | a compress never raises a reported quantile and lowers its rank by less than 2n/t |
| `QuantileDigest.DigestInvariant` | internal/anomaly/quantile.go:252-308 | over any tree of adds and merges the digest is a sorted selection of its observations with their minimum, and with a positive compression has at most max(4096, t) values |
| `QuantileDigest.SizeBoundedExactly` | internal/anomaly/quantile.go:252-308 | the size bound holds for every digest if and only if the compression is positive |
| `QuantileDigest.TDigest.Add` | internal/anomaly/quantile.go:252-265 | adding inserts in order and compresses once the value cap is exceeded |
| `QuantileDigest.AddLosesExactly` | internal/anomaly/quantile.go:252-265 | an observation within the cap loses nothing, and one beyond it compresses the values with it in order |
| `QuantileDigest.TDigest.Downsample` | internal/anomaly/quantile.go:269-280 | the cursor loop picks the values at the floors of multiples of n/t |
| `QuantileDigest.TDigest.Merge` | internal/anomaly/quantile.go:296-308 | merging inserts every value of another digest in order, compresses at most once, and leaves the other digest alone |
| `QuantileDigest.TDigest.MergeSelf` | internal/anomaly/quantile.go:258-308 | merging a digest into itself reads the slice it inserts into: with room for c more values it rereads the least value c times and then the first n - c values |
| `QuantileDigest.SelfMergeDoublesExactly` | internal/anomaly/quantile.go:258-308 | a digest merged into itself gains its own values once more if and only if its slice has no room to spare or its values are all the same |
| `SortedValues.SortedIsUnique` | internal/anomaly/quantile.go:34-35 | two ordered rearrangements of the same values are equal, so the result of sorting is determined |
| `Sharding.ShardFor` | internal/sampler/sampler.go:53-66 | the scan returns the first member with the highest score, in range, and -1 only for an empty ring |
| `Sharding.ResizeMovesOnlyItsOwn` | internal/sampler/sampler.go:53-66 | removing a member changes the owner only of that member's traces, hence adding one moves traces only to it |
| `RedMetrics.AccumulateSummarizes` | internal/sampler/red.go:38-72 | each bucket holds the call and error counts, the summed duration and the first four distinct traces of exactly its own spans, and no bucket exists without one |
| `RedMetrics.BucketHolds` | internal/sampler/red.go:38-45 | a window starts at a multiple of ten seconds and holds the moment |
| `RedMetrics.TotalUpdate` | internal/sampler/red.go:55-55 | replacing one bucket changes the total of calls by that bucket's difference |
| `RedMetrics.Accumulator.Accumulate` | internal/sampler/red.go:38-72 | accumulating adds exactly one sighting; the calls over all buckets count every sighting since the last flush |
| `RedMetrics.Accumulator.Flush` | internal/sampler/red.go:80-89 | a flush hands over every bucket exactly once and leaves none |
| `TraceAssembly.ConsumeKeepsConsistent` | internal/sampler/assembly.go:194-247 | a span is counted once, as accepted or as duplicate, and every buffer keeps its own key and distinct span ids, the journal equals the buffers, and per key accepted spans are the finalized then the open ones in order |
| `TraceAssembly.CloseNext` | internal/sampler/assembly.go:279-302 | finalizing one of the traces taken out of a shard keeps journal agreement, ordering and conservation, counting the traces still in between |
| `TraceAssembly.ReplayRebuilds` | internal/sampler/assembly.go:391-447 | replaying a consistent manager's journal into empty shards rebuilds the same keys, tenants, ids and ordered spans, with byte sizes left at zero |
| `TraceAssembly.ReplayIdempotent` | internal/sampler/assembly.go:409-441 | replaying a manager's own journal adds no span |
| `TraceAssembly.AcceptAgreesExactly` | internal/sampler/assembly.go:206-244 | under any ring the index of a span's shard is out of range exactly when the ring is empty and there are several shards, and a fresh span keeps journal and buffers in agreement if and only if the owner the ring names is one of the shards |
| `TraceAssembly.MemWAL.Append` | internal/sampler/wal.go:56-66 | appends the span to its shard and key and touches nothing else |
| `TraceAssembly.MemWAL.Truncate` | internal/sampler/wal.go:68-75 | drops one key of one shard |
| `TraceAssembly.MemWAL.Replay` | internal/sampler/wal.go:77-87 | returns the shard's journal unchanged |
| `TraceAssembly.Manager.Consume` | internal/sampler/assembly.go:194-247 | with no Tick at work on the same shard, a batch keeps every between-call invariant; spans consumed are spans accepted plus duplicates, and RED sees exactly the accepted ones |
| `TraceAssembly.Manager.ConsumeSpan` | internal/sampler/assembly.go:196-245 | the effect of one span on buffers, journal, duplicate counter and RED |
| `TraceAssembly.Manager.Tick` | internal/sampler/assembly.go:253-274 | with no Consume at work, exactly the traces idle or too old, which TraceTimes.GivenUpExactly tells by their spans' times, leave their shards; each has exactly one new record, unforced and carrying the trace whole, and there is no other record; every invariant is kept |
| `TraceTimes.AlwaysTimed` | internal/sampler/assembly.go:204-234 | over every run an open trace was first and last seen when the first and the last of its spans were accepted, and is as large as its spans together |
| `TraceTimes.GivenUpExactly` | internal/sampler/assembly.go:253-268 | over every run a tick gives up a trace if and only if the last of its spans was accepted at least the idle timeout ago or the first of them at least the hard timeout ago |
| `TraceTimes.SightedExactly` | internal/sampler/red.go:38-72 | an accepted span is sighted under its own tenant, service, operation, error and trace, for the time from start to end |
| `TraceAssembly.Manager.FlushAll` | internal/sampler/assembly.go:363-381 | every shard ends empty; each open trace has exactly one new record, forced and carrying the trace whole, and there is no other record; every invariant is kept |
| `TraceAssembly.Manager.ReplayWAL` | internal/sampler/assembly.go:391-447 | each shard becomes the merge of its buffers with its journal, whatever the order of keys |
| `OverlappedAssembly.AlwaysBalanced` | internal/sampler/assembly.go:194-302 | however Consume and Tick overlap on a shard, per key the spans accepted are those finalized, then those taken out and not yet truncated, then those open, in order; each buffer and record keeps distinct span ids of its own key |
| `OverlappedAssembly.AgreesExactly` | internal/sampler/assembly.go:204-297 | with no call at work the journal holds exactly the open buffers if and only if every append after its own trace was truncated has been followed by a truncate of its key, and every append made while the trace before it awaited its truncate by a take-out of its key |
| `OverlappedAssembly.ReplayAfterOverlap` | internal/sampler/assembly.go:391-447 | with no call at work a replay brings a key back exactly if it has stray appends or open spans whose journal entry was not truncated early, and without strays exactly those open spans |
| `OverlappedAssembly.ApartAgrees` | internal/sampler/assembly.go:204-297 | if neither call begins on a shard before the other is done with it, journal and buffers agree whenever both are done |
| `OverlappedAssembly.LateAppendOrphans` | internal/sampler/assembly.go:233-244 | a reachable state with nothing open and a finalized span still in the journal |
| `OverlappedAssembly.EarlyAppendForgets` | internal/sampler/assembly.go:263-296 | a reachable state with an accepted open span and an empty journal |
| `OverlappedAssembly.ConsumeIsTwoSteps` | internal/sampler/assembly.go:204-244 | a buffering and its append with nothing in between are the manager's single step |
| `OverlappedAssembly.FinalizeIsTwoSteps` | internal/sampler/assembly.go:260-297 | a take-out and its truncate with nothing in between are the manager's single finalization |
| `StoreBridge.StepInStep` | cmd/traceiq/system.go:303-380 | every interleaved step keeps the keeps sent equal to those stored followed by those owed, whose decisions and traces wait in the same order |
| `StoreBridge.StoredInPairs` | cmd/traceiq/system.go:303-380 | in every interleaving the store holds the keeps in the order sent, each once and with the trace of its own tenant and id, in the anomalous tier exactly when kept as error, slow, rare or interesting |
| `StoreBridge.NothingLostAtExit` | cmd/traceiq/system.go:334-346 | when the bridge exits, every keep decision ever sent has been stored exactly once |
| `StoreBridge.NeverDeadlocked` | cmd/traceiq/system.go:367-371 | with channel capacities of at least one, producer and bridge never block each other |
| `StoreBridge.ShutdownFinishes` | cmd/traceiq/system.go:485-502 | with the ticker joined before the flush and the flush before the cancel, every step but another finalize brings the exit nearer, and one is always possible until then |
| `StoreBridge.Bridge.ApplyDecision` | cmd/traceiq/system.go:367-380 | a keep takes exactly one trace and stores it in the tier of its reason; anything else takes none |
| `StoreBridge.Bridge.DrainStoreBridge` | cmd/traceiq/system.go:334-346 | on quiet, matching channels the drain empties both and stores every keep with its own trace |
| `Pipeline.StepKeeps` | cmd/traceiq/system.go:267-380 | every step of drainer, ticker, policy and bridge together keeps each shard balanced, the judged traces equal to those given up, the jobs sent equal to those judged, and the policy equal to its run of evaluations |
| `Pipeline.EndToEnd` | cmd/traceiq/system.go:267-380 | at exit every trace given up was judged once, by the policy as the earlier judgements left it or shed by the flush; the store holds exactly the kept ones in order, each whole; and per key the spans accepted are those judged and then those open |
| `Pipeline.StoredExactly` | cmd/traceiq/system.go:267-380 | at exit the store has every accepted span of a key, once and in order, if and only if every trace of the key was kept and none is open |
| `IngestQueue.StepKeepsAccounts` | internal/ingest/queue.go:44-56 | every interleaved step keeps the counter off the queued bytes by exactly what is in flight, the consumed, held and queued batches in order of entry, and the accepted pushes equal to the entered batches but for sends about to return |
| `IngestQueue.AdmitKeepsBound` | internal/ingest/queue.go:45-47 | the byte check, made against a counter that lags behind other producers, keeps counted, sent and admitted bytes within the bound |
| `IngestQueue.QueuedBytesBounded` | internal/ingest/queue.go:44-56 | with P producers of batches of at most B bytes the queue holds at most MaxBytes + (P - 1) * B bytes, and at most MaxBytes for one producer |
| `IngestQueue.BoundAttained` | internal/ingest/queue.go:44-56 | for every MaxBytes of at least one batch, given room in the channel, a schedule reaches exactly that many bytes, so no smaller bound holds |
| `IngestQueue.CounterExactAtRest` | internal/ingest/queue.go:133-138 | the counter equals the queued bytes whenever nothing is between a send and its count or a receive and its discount |
| `IngestQueue.ConsumedInOrder` | internal/ingest/queue.go:98-108 | what has been consumed is always a prefix of what entered |
| `IngestQueue.NothingLostAtExit` | internal/ingest/queue.go:98-122 | after the stop the drainer exits only when every entered batch was consumed in order and every accepted push exactly once, with the counter at zero |
| `IngestQueue.StopLeadsToExit` | internal/ingest/queue.go:98-122 | after the stop every action brings the exit nearer and one is always possible until then |
| `IngestQueue.PushEndsExactly` | internal/ingest/queue.go:62-82 | over every run a push ends accepted after its send, cancelled in its one wait, or refused by its check or its send, at once when the policy sheds and after the timer when it blocks |
| `IngestQueue.SinkQueue.TryEnqueue` | internal/ingest/queue.go:44-56 | an undisturbed attempt succeeds exactly when both bounds allow it, and then queues and counts the batch |
| `IngestQueue.SinkQueue.Push` | internal/ingest/queue.go:62-82 | an undisturbed push accepts, sheds, times out or is cancelled as the overflow policy says, and only an accepted one changes the queue |
| `IngestQueue.SinkQueue.DrainRemaining` | internal/ingest/queue.go:113-122 | draining delivers everything buffered in order and discounts it |
| `CostController.TieredStore.EmitCostSignal` | internal/store/store.go:528-579 | one tick: deadband, half-floor step, clamps and watermark, with the signal dropped when the channel is full |
| `CostController.WatermarkRises` | internal/store/store.go:581-592 | the watermark rises with disk use, at 80, 85 and 95 percent |
| `CostController.SettledIsFixed` | internal/store/store.go:540-562 | a tick leaves a floor alone if and only if it is in the deadband or at the clamp the budget asks for |
| `CostController.SettledForever` | internal/store/store.go:540-562 | once settled the closed loop never moves again |
| `CostController.SettlesExactly` | internal/store/store.go:528-562 | with observed bytes proportional to the floor, every floor in range comes to rest within thirty ticks if and only if the bytes at the lowest floor are not strictly between 23/30 and 17/20 of the budget; there the lowest floor never rests |
| `CostController.NothingToSpendRises` | internal/store/store.go:536-562 | with no budget set, or nothing observed, every floor has risen to the highest within thirty ticks |
| `CostController.FloorAlternates` | internal/store/store.go:544-562 | inside that window the loop from the lowest floor alternates between it and half as much again |
| `TopologyWalks.FirstLayerIsShortest` | internal/topology/livegraph.go:463-499 | the layer in which a search first reaches a service is the length of its shortest walk |
| `LiveTopology.AnyOrderYields` | internal/topology/livegraph.go:436-457 | scanning the edges in any order reaches the same services and sees the same edges |
| `LiveTopology.LiveGraph.Neighbors` | internal/topology/livegraph.go:426-461 | the search lists every service within the hops once, at its exact distance in the chosen direction, upstream or downstream as it was reached, with every edge seen on the way |
| `LiveTopology.HopsAreTold` | internal/topology/livegraph.go:426-461 | the hops told by the edges alone: the root at none, any other service one beyond one that an edge reaches it from, none left out or put further |
| `LiveTopology.EdgesAreTold` | internal/topology/livegraph.go:433-459 | the edges seen are those that leave a service nearer than the last hop in the direction of the search |
| `LiveTopology.LiveGraph.Distance` | internal/topology/livegraph.go:463-499 | returns the shortest undirected distance when it is at most the limit and not found exactly when there is none that short |
| `LiveTopology.WaitingExactly` | internal/topology/livegraph.go:153-179 | a client call waits under its reference exactly when the last span to touch the reference was its own, so it is answered at most once and by its own child |
| `LiveTopology.LiveGraph.Consume` | internal/topology/livegraph.go:143-185 | the batch folds into the graph the calls that GraphCalls reads off its spans |
| `GraphCalls.RequestExactly` | internal/topology/livegraph.go:143-185 | what a span counts: its own peer's call; or, for an answer, the call of the last span that asked under its parent id with no answer between, else of one left waiting by an earlier batch, else of the outside |
| `GraphCalls.BatchIsCalls` | internal/topology/livegraph.go:143-245 | a batch changes the edge table as those calls do one after another, a call within a service being internal and lasting from start to end |
| `LiveTopology.LiveGraph.UpsertEdge` | internal/topology/livegraph.go:209-290 | one call: count, evict when the edge is new, mark novelty after the eviction, and emit with drop-oldest |
| `EdgeHistory.EdgesSumUp` | internal/topology/livegraph.go:209-243 | after any calls each live edge is what it was when put into the table plus the number, errors, durations and histogram of the calls since, last seen at the last |
| `EdgeHistory.AnnouncedExactly` | internal/topology/livegraph.go:244-290 | a call announces a new edge if and only if the edge does not outlive the call, or its last call is not remembered or is more than a day old |
| `LiveTopology.LiveGraph.EvictIfNeeded` | internal/topology/livegraph.go:315-337 | the loop of coldest-first removals leaves exactly the edges that survive by rank |
| `LiveTopology.LiveGraph.ColdestOf` | internal/topology/livegraph.go:321-327 | the scan finds the coldest edge whatever the map order |
| `LiveTopology.LiveGraph.WarmStart` | internal/topology/livegraph.go:658-686 | loaded edges are installed, numbered when new, and the cap applied |
| `LiveTopology.LiveGraph.BucketIndex` | internal/topology/livegraph.go:743-755 | the doubling loop returns the clamped binary logarithm of the milliseconds |
| `EdgeTable.BucketExactly` | internal/topology/livegraph.go:743-755 | a duration belongs to one and only one bucket |
| `EdgeTable.EvictsTheColdest` | internal/topology/livegraph.go:315-350 | every evicted edge is colder in (calls, last seen, insertion) than every edge kept |
| `EdgeTable.EvictionFitsCap` | internal/topology/livegraph.go:315-337 | an eviction leaves exactly the cap, or everything when it fits, with insertion numbers unique and on the same keys |
| `EdgeTable.UpsertKeepsCap` | internal/topology/livegraph.go:221-248 | a call keeps the cap and the numbering, and live plus evicted edges grow by one exactly when the edge is new |
| `EdgeTable.UpsertKeepsBalance` | internal/topology/livegraph.go:237-245 | after any call every histogram sums to its edge's calls |
| `EdgeTable.NewcomerSurvivesExactly` | internal/topology/livegraph.go:246-248 | at the cap a new edge stays if and only if some edge was never called, or once and no later than now |
| `EdgeTable.TracksExactly` | internal/topology/livegraph.go:244-263 | the remembered sightings stay those of live edges if and only if the called edge is live after the call |
| `EdgeTable.TimesOutgrowCap` | internal/topology/livegraph.go:246-340 | a table at the cap that gives way to no newcomer keeps its edges and remembers one more sighting for each new edge offered, without bound |
| `EdgeTable.WarmStartWithinCap` | internal/topology/livegraph.go:658-686 | however many edges are loaded, warm start ends within the cap |
| `EdgeTable.RunTo` | internal/topology/livegraph.go:209-350 | after any run of calls and warm starts the table is within its cap, numbers each live edge once, and every histogram sums to its calls |
| `TokenBucket.Limiter.Take` | internal/sampler/tokenbucket.go:28-44 | one take: refill up to the capacity, then grant and consume one token if there is one |
| `TokenBucket.WindowGrantsBounded` | internal/sampler/tokenbucket.go:28-44 | takes timed inside a window are granted at most capacity + rate * length, after any history and even if the clock steps back |
| `TokenBucket.GrantedExactlyWithinBound` | internal/sampler/tokenbucket.go:28-44 | on a monotone clock a take is granted if and only if granting it keeps every window ending with it within capacity plus accrual |
| `KeepPolicy.DefaultPolicy.Evaluate` | internal/sampler/policy.go:305-386 | the decision and the policy after it; KeepPolicyRuns.ClassExactly, ShedExactly and DecisionExactly say which class, whether shed, and what is recorded |
| `KeepPolicy.DefaultPolicy.PruneLocked` | internal/sampler/policy.go:162-174 | drops the leading events older than a minute and stores what is left |
| `KeepPolicy.DefaultPolicy.AllowForTenant` | internal/sampler/policy.go:145-160 | allows exactly when the pruned window is empty or its kept share is within the rate |
| `KeepPolicy.DefaultPolicy.ShouldShedClass` | internal/sampler/policy.go:199-223 | sheds a ranked class exactly when no lower rank has a keep standing in the window |
| `KeepPolicy.DefaultPolicy.IsRareCandidate` | internal/sampler/policy.go:229-245 | a signature is a candidate when tracked or under the cap, and unseen for more than the lookback |
| `KeepPolicy.DefaultPolicy.TryTakeRare` | internal/sampler/policy.go:250-273 | takes from the tenant's bucket and remembers the signature only when granted |
| `KeepPolicy.DefaultPolicy.TryTakeFloor` | internal/sampler/policy.go:275-285 | takes from the bucket of the tenant and service |
| `KeepPolicyRuns.KeepsPerWindowBounded` | internal/sampler/policy.go:250-285 | in any window of a run, rare keeps per tenant and floor keeps per tenant and service are within the bucket's capacity plus accrual |
| `KeepPolicyRuns.RareKeepsSpaced` | internal/sampler/policy.go:229-273 | on a monotone clock two rare keeps of one tenant's signature are more than the lookback apart |
| `KeepPolicyRuns.CardinalityCapped` | internal/sampler/policy.go:237-239 | the signatures tracked for a tenant never outnumber the cap |
| `KeepPolicyRuns.WindowIsLastMinute` | internal/sampler/policy.go:162-180 | however often it was pruned, the pruned history is exactly the tenant's events of the last sixty seconds |
| `KeepPolicyRuns.ClassExactly` | internal/sampler/policy.go:330-345 | the class earned: error if some span is in error, else slow, else rare if a candidate has a token, else interest if matched, else floor if it has a token, else by the hash of the id, else dropped |
| `KeepPolicyRuns.SlowBySomeSpan` | internal/sampler/policy.go:310-312 | while durations fit in 63 bits, slow means a warm baseline and some span longer than both its p99 and the minimum |
| `KeepPolicyRuns.RareRememberedExactly` | internal/sampler/policy.go:247-273 | exactly the traces that earn the rare class have their signature tracked and its last keep set to now |
| `KeepPolicyRuns.DecisionExactly` | internal/sampler/policy.go:304-385 | what a decision says: kept unless dropped or shed, the matched predicate, and every other class that would have claimed the trace |
| `KeepPolicyRuns.ShedExactly` | internal/sampler/policy.go:353-384 | a trace is shed if and only if its class by that table may be shed, more than the keep rate of the tenant's last minute was kept, and no class shed before it has a keep standing in that minute; otherwise it keeps its class |
| `KeepPolicyRuns.NeverShed` | internal/sampler/policy.go:346-383 | errors, truncated traces and investigation-scope interest are never shed |
| `RemediationGuard.Guard.ProposeAction` | internal/remediate/guard.go:203-276 | one proposal: idempotency, validation, re-resolution, allowlists, budget, stamping and the record |
| `RemediationGuard.Guard.ApproveAction` | internal/remediate/guard.go:288-387 | one approval: expiry, separation of duty, override or budget, deadline and auto-execute flag |
| `RemediationGuard.Guard.RejectAction` | internal/remediate/guard.go:389-404 | only proposed or approved actions can be rejected |
| `RemediationGuard.Guard.ExecuteAction` | internal/remediate/guard.go:406-560 | one execution: replay, expiry, re-resolution, allowlists when the policy can be read, snapshot, the call, and the record; GuardSafety.CallsExactly says when it calls |
| `RemediationGuard.Guard.VerifyAction` | internal/remediate/guard.go:562-594 | a verifying action succeeds or fails by the result |
| `RemediationGuard.Guard.RollbackAction` | internal/remediate/guard.go:596-623 | a verifying or failed action is rolled back unless the live object changed since the snapshot |
| `RemediationGuard.Guard.ExpireDueActions` | internal/remediate/guard.go:671-692 | exactly the due proposals and approvals expire, and are counted |
| `RemediationGuard.Guard.CountBudget` | internal/remediate/guard.go:189-201 | counts the incident's actions that are neither rejected nor expired |
| `GuardSafety.ProposesExactly` | internal/remediate/guard.go:203-286 | a proposal makes an action if and only if the key is new, the policy can be read and finds it valid, its target resolves and is allowed, and the budget has room; and every field of that action |
| `GuardSafety.ApprovesExactly` | internal/remediate/guard.go:288-387 | when an approval goes through, and the approver, deadline, override and auto-execution it records |
| `GuardSafety.RejectsExactly` | internal/remediate/guard.go:389-404 | when a rejection goes through, and what it changes |
| `GuardSafety.VerifiesExactly` | internal/remediate/guard.go:562-594 | when a verification goes through, and that it settles the action by its answer |
| `GuardSafety.RollsBackExactly` | internal/remediate/guard.go:596-623 | a rollback goes through if and only if the action is verifying or failed and its live object is still at the snapshot's version, where both are known |
| `GuardSafety.ExpiresExactly` | internal/remediate/guard.go:671-692 | the sweep expires exactly the proposals and approvals past their deadlines and changes nothing else |
| `GuardSafety.PerformSafe` | internal/remediate/guard.go:203-692 | every operation keeps the budget, the approvals and the record of calls, and moves each action by a legal transition at most |
| `GuardSafety.ExecutedOnceAndApproved` | internal/remediate/guard.go:406-560 | over every run each action is executed at most once, on an approval by someone other than its recorded proposer, strictly before its expiry, and after a snapshot when one is wired |
| `GuardSafety.CallsExactly` | internal/remediate/guard.go:406-560 | an execution calls its executor if and only if the key is new, the approval stands, the target resolves to the object approved, the allowlists allow it where the policy can be read, the snapshot is taken, and the executor is wired and accepts the payload |
| `GuardSafety.CallsAsApproved` | internal/remediate/guard.go:445-500 | over every run each call's target is allowed by the policy read for it, its payload accepted, its executor wired, and its object the one the action was aimed at whenever that was known |
| `GuardSafety.CallsAreExecutions` | internal/remediate/guard.go:406-560 | each call was made by one execution of its approved action, on the target resolved and under the policy read for it, and left the action verifying or failed by the answer |
| `GuardSafety.SubmitterNeverApproves` | internal/remediate/guard.go:250-253 | over every run the proposer of an executed action is its submitter if and only if the request named none or the submitter, and then, without an authorizer, the approver was someone else |
| `GuardSafety.SubmitterApprovesExactly` | internal/remediate/guard.go:310-320 | straight after a proposal its submitter's approval is refused for want of separation exactly when the request named the submitter or no one, and succeeds otherwise |
| `GuardSafety.CallsWithinBudget` | internal/remediate/guard.go:237-244 | an incident never sees more executor calls than the largest budget in force, overrides and expiries included |
| `GuardSafety.ApprovalBudgetIdle` | internal/remediate/guard.go:345-363 | under a fixed policy the budget check at approval never refuses |
| `GuardSafety.OverridesAlwaysLimited` | internal/remediate/guard.go:326-344 | over every run no incident is granted more budget overrides than the configured limit |
| `GuardSafety.FinalStatesLast` | internal/remediate/guard.go:288-692 | succeeded, rolled back, rejected and expired actions never change state, and identities never change |
| `GuardSafety.RecordsStayForever` | internal/remediate/guard.go:164-185 | an idempotency record is never replaced |
| `GuardSafety.ExecuteReplays` | internal/remediate/guard.go:415-419 | an execution that reached the executor, repeated under its key at any later time, returns the recorded action and calls nothing |
| `GuardSafety.ProposeReplaysExactly` | internal/remediate/guard.go:207-211 | a key already used never makes a second action: it returns the first exactly when the digest equals that of the stamped proposal, and is refused otherwise |
| `GuardSafety.SameProposalRefused` | internal/remediate/guard.go:246-275 | with a digest that does not collide, repeating the same request is answered if and only if it already carried the id, the time, the risk tier, the proposer and the resolved target the guard stamps |
| `GuardSafety.RepeatWithoutIdRefused` | internal/remediate/guard.go:207-211 | whatever is sent under a key that has made an action is refused as a reuse unless it carries that action's own id |
| `AuditChain.AuditLog.Append` | internal/remediate/audit.go:64-81 | appends one entry numbered and linked in the tenant's own chain |
| `AuditChain.AuditLog.VerifyChain` | internal/remediate/audit.go:114-145 | the two loops compute the seed and the scan of the requested range |
| `AuditChain.EveryTenantChained` | internal/remediate/audit.go:64-81 | however tenants interleave, each tenant's entries are its events in order, numbered 1..n and linked to its previous hash |
| `AuditChain.UntouchedAccepted` | internal/remediate/audit.go:114-145 | every range of an untouched log is accepted |
| `AuditChain.VerifyExactly` | internal/remediate/audit.go:110-145 | for any log whatever, its stored fields edited at will: accepted if and only if every covered entry hashes, from the stored hash of the covered entry before it or the seed, to its own; otherwise the first that does not is reported |
| `AuditChain.IntoIsLatest` | internal/remediate/audit.go:133-143 | what the scan brings to an entry is the stored hash of the latest covered entry before it, or the seed |
| `AuditChain.SeedIsLatest` | internal/remediate/audit.go:118-131 | the seed is the stored hash of the tenant's latest entry numbered from - 1, or empty |
| `AuditChain.VerifyReportsLeastBroken` | internal/remediate/audit.go:114-145 | of an intact log whose events alone were overwritten, verification reports the least number in range that no longer hashes to its stored value, and accepts exactly when there is none |
| `AuditChain.VerifyReportsLeastChange` | internal/remediate/audit.go:45-60 | for such edits and without collisions that is the least number whose run-together text or timestamp changed |
| `AuditChain.PayloadEditChanges` | internal/remediate/audit.go:45-60 | a payload edit changes the message exactly when the payload differs |
| `AuditChain.MessageTellsAll` | internal/remediate/audit.go:45-60 | with previous hashes of one length, two messages are equal if and only if previous hash, number, run-together tenant, actor, action and payload, and timestamp all are |
| `AuditChain.WordDecodes` | internal/remediate/audit.go:48-57 | a number is written in eight bytes, the most significant first |
| `AuditChain.SameTextUnseen` | internal/remediate/audit.go:45-60 | an event overwritten with one of the same run-together text and timestamp changes no verdict |
| `AuditChain.ShiftedBoundaryUnseen` | internal/remediate/audit.go:15-20 | moving bytes from the end of the actor to the front of the action changes the stored event and no verdict of verification, against the promise that any mutated field is noticed |
| `AuditChain.PrevHashUnseen` | internal/remediate/audit.go:114-145 | overwriting a stored previous hash changes no verdict |
| `AuditChain.RelabelledLastUnseen` | internal/remediate/audit.go:114-145 | giving a tenant's last entry to another tenant in an intact log leaves every range of the first tenant's chain accepted |
| `AuditChain.ReceiverAcceptsExactly` | internal/remediate/audit.go:114-145 | the tenant an entry is relabelled to accepts if and only if the entry hashes from what its chain brings there and the entry after it hashes from the relabelled one |
| `AuditChain.ReceiverAcceptsLinks` | internal/remediate/audit.go:114-145 | with a hash that tells previous hashes apart: if and only if each entry linked anew was already stored with the hash it now follows |
| `InvestigationLoop.IterationProgresses` | internal/rca/engine.go:211-403 | unless an LLM can be followed by an LLM, every iteration that goes on spends a step or gives up the LLM for good |
| `InvestigationLoop.LLMFallbackSpins` | internal/rca/engine.go:262-277 | with an LLM fallback any number of iterations can pass with nothing spent |
| `InvestigationLoop.EndsExactly` | internal/rca/engine.go:205-277 | an engine's investigations end in every environment if and only if it starts with rules, or its fallback is not an LLM, or its budget admits no first iteration |
| `InvestigationLoop.IterationKeeps` | internal/rca/engine.go:303-402 | no iteration overruns the step or tool-call budget, misnumbers a step, or journals out of order |
| `InvestigationLoop.ToolBudgetIdle` | internal/rca/engine.go:224-227 | a tool-call budget at least as large as the step budget, as the defaults of 40 and 24 are, never stops an investigation |
| `InvestigationLoop.Engine.Iteration` | internal/rca/engine.go:212-402 | one pass of the loop in the source's order of checks and effects |
| `InvestigationLoop.StopsExactly` | internal/rca/engine.go:211-282 | when a run goes on, and otherwise the one reason it is over for, in order: called off, wall clock, steps, tool calls, tokens, cached tokens, cost, concluded, failed |
| `InvestigationLoop.SpendsAsAsked` | internal/rca/engine.go:303-402 | while a run goes on it has spent a step for each proposal and the opening, a tool call for each proposal with one, the usage reported, and a swap for each failure |
| `InvestigationLoop.ToolStepExactly` | internal/rca/engine.go:319-402 | what a tool step records: verdict, hash and evidence of its rows, and what it leaves in the object store |
| `InvestigationLoop.ReportsExactly` | internal/rca/engine.go:425-439 | a run is reported concluded if and only if it concluded with a confidence of 0.75 and never changed reasoner |
| `InvestigationLoop.Engine.Investigate` | internal/rca/engine.go:205-436 | the loop ends, and its report caps the confidence of a swapped run before deciding the status |
| `InvestigationLoop.Engine.MergeHypotheses` | internal/rca/engine.go:673-687 | updates in place by id, or appends |
| `InvestigationLoop.LastUpdateStands` | internal/rca/engine.go:673-687 | of several updates to a hypothesis the last stands, and hypotheses keep their places |
| `InvestigationLoop.Engine.ReplayRecorded` | internal/rca/engine.go:495-514 | succeeds with the journalled steps exactly when every recorded piece of evidence is present and unaltered |
| `InvestigationLoop.InvestigationEnds` | internal/rca/engine.go:205-436 | whatever it meets, an investigation stays within its budgets, Steps[i].Seq is i, it swaps at most once, and a swapped one never ends concluded |
| `InvestigationLoop.RecordedReplaySucceeds` | internal/rca/engine.go:495-536 | replaying over the untouched object store always succeeds and yields a subsequence of the steps in order |
| `InvestigationLoop.ReplaySameSteps` | internal/rca/engine.go:484-511 | the replay has exactly the steps of the investigation if and only if every tool step the run took was journalled |
| `RuleReasoner.NextProposal` | internal/rca/rules/rules.go:253-303 | the reply NextExactly describes |
| `RuleReasoner.NextExactly` | internal/rca/rules/rules.go:253-303 | settles the hypothesis whose result waits by its rule, done at a confirmed confidence of 0.75; else tests the first rule without a hypothesis; else has no more |
| `RuleReasoner.Conclude` | internal/rca/rules/rules.go:311-335 | picks the first of the strongest supported hypotheses, or none |
| `RuleReasoner.EachRuleAtMostOnce` | internal/rca/rules/rules.go:253-303 | over any catalog each rule is dispatched at most once, and an investigation takes at most 1 + 2 * |catalog| steps |
| `RuleReasoner.RulesConclude` | internal/rca/rules/rules.go:253-303 | with a larger step budget and no interruption an investigation by rules ends concluded or inconclusive, with a rule confirmed at the threshold or the catalog exhausted |
| `IncidentGrouper.LookupIsFullScan` | internal/anomaly/grouper.go:265-272 | the indexed lookup finds an open in-window incident near the event exactly when a scan of all incidents would |
| `IncidentGrouper.AttachKeepsIndex` | internal/anomaly/grouper.go:149-176 | the index stays equal to: incidents with a service whose neighbourhood contains the key |
| `IncidentGrouper.AddKeeps` | internal/anomaly/grouper.go:242-317 | every event leaves the index right, scores in range with provisional ones at most 0.69, and at most MaxOpenIncidents open |
| `IncidentGrouper.EnforcedKeeps` | internal/anomaly/grouper.go:301-317 | one expiry brings the open incidents back within the cap |
| `IncidentGrouper.Grouper.Add` | internal/anomaly/grouper.go:242-299 | an event rejoins by fingerprint, joins the first in-window incident listed for its service, or opens a new one |
| `IncidentGrouper.Grouper.AttachEvent` | internal/anomaly/grouper.go:167-240 | attaching updates services, index, event ids, the provisional flag, the best scores and the incident score; IncidentHistory says what they amount to |
| `IncidentGrouper.Grouper.EnforceMaxOpenIncidents` | internal/anomaly/grouper.go:301-317 | over the cap one open incident of the lowest score expires, and nothing else changes |
| `IncidentGrouper.Grouper.Suppress` | internal/anomaly/grouper.go:332-344 | suppresses a known incident and keeps every invariant |
| `IncidentHistory.IncidentsTell` | internal/anomaly/grouper.go:167-299 | over every run an incident has the last ids of its events, each of their services once, the provisional flag of any, the times of the latest and the last, and the score of its services and its highest event score, at most 0.69 while provisional |
| `IncidentHistory.JoinsExactly` | internal/anomaly/grouper.go:242-299 | which incident an event joins: that of a fingerprint open or lately closed, else one that is open with a last event within the window and a service near, if there is any, else a new one |
| `IncidentHistory.LabelsTell` | internal/anomaly/grouper.go:247-299 | over every run a fingerprint leads to the incident it was last seen in, an incident bears the first fingerprint it was given, and exactly the suppressed and expired have a closing time |
| `IncidentHistory.ExpiresByScore` | internal/anomaly/grouper.go:301-317 | only an event that opens an incident can close one: one of the lowest score, exactly when the open ones are then more than the cap |
| `EditDistance.Levenshtein` | internal/nl/entities.go:18-57 | the two-row loop with swapped rows computes the recursive edit distance |
| `EditDistance.DistIsLeastScript` | internal/nl/entities.go:18-57 | that distance is the length of a shortest script of insertions, deletions and replacements |
| `EditDistance.DistSymmetric` | internal/nl/entities.go:18-57 | the distance is symmetric |
| `EditDistance.DistZero` | internal/nl/entities.go:18-57 | the distance is zero exactly for equal strings |
| `EditDistance.DistTriangle` | internal/nl/entities.go:18-57 | the triangle inequality |
| `EditDistance.MatchService` | internal/nl/entities.go:73-104 | reports the first catalog entry of least distance within two, exactly unless that entry's name is empty |
| `EditDistance.CandidatesExactly` | internal/nl/entities.go:79-83 | a candidate is a word or two neighbouring words joined by a hyphen |
| `EditDistance.NamelessEntryHidesMatch` | internal/nl/entities.go:73-104 | a concrete catalog whose empty entry hides a match |

## Left out

- HTTP, MCP, gRPC, TLS, the web UI and Prometheus code: plumbing over libraries that are not part of this model.
- SQLite and Parquet drivers, file adapters, configuration reflection and JSON encoding: stores, journals and object stores are maps or sequences.
- LLM client, prompts, sanitizer and natural-language patterns: the reasoner is an arbitrary source of replies and errors.
- kubectl and payload construction: an executor call is a recorded event, and the proposal and payload checks are parameters.
- Concrete xxhash, FNV and SHA values, random ids and IEEE rounding: hashes are parameters, new ids are assumed fresh, and arithmetic is over reals.
- Ranking and consolidation of memories, evaluation scoring, config validation, baselines, predicates and correlation: easier members or heuristics.
- Concurrency inside one component: calls to the policy, the guard, the grouper and the graph are atomic. The wired program evaluates the policy from one goroutine; Consume and Tick, which do overlap, are OverlappedAssembly's.
- TraceAssembly.Manager.Consume: one call at a time, an overlapping Tick being OverlappedAssembly's; assumes a stable ring no longer than the list of shards and a WAL that is present; ring swaps, the epoch stamp, append errors and the byte high-water mark are not modelled.
- TraceAssembly.Manager.Tick: one call at a time, an overlapping Consume being OverlappedAssembly's; the policy's decision on a finalized trace is made in Pipeline; the conversion to the stored trace's summary fields is not modelled.
- TraceAssembly.Manager.ReplayWAL: the replay report's counters are not modelled.
- TraceTimes.GivenUpExactly: over runs of Consume, Tick and FlushAll; a replay gives its own time as the time its spans were accepted.
- RedMetrics.Accumulator.Flush: the drop-oldest channel the samples go to is not modelled.
- OverlappedAssembly.AgreesExactly: one shard and one drainer, as wired; with several drainers appends of one key could also change places.
- Pipeline.EndToEnd: a trace's path signature, baseline and interest match are inputs of its judgement, and judging, truncating and starting the send are one step.
- StoreBridge.NothingLostAtExit: a store append is one that was handed to the store; an append that returns an error is logged and not retried, as in the source.
- IngestQueue.BoundAttained: a limit smaller than one batch is not covered, since no batch of that size can then enter.
- IngestQueue.NothingLostAtExit: stopping the receivers before the drain is a premise, as the source's comments require of the caller.
- CostController.SettlesExactly: the observed bytes are taken to be proportional to the floor, and the loop to start inside the range of floors.
- P2Quantiles.P2Estimator.Add: requires only that the three levels have the shape some observations and merges leave; after an observation that panics nothing is promised of the contents.
- QuantileDigest.TDigest.Merge: requires another digest; MergeSelf models the rest, with the spare room of the slice as a parameter.
- PathSignature.ComputePathSignature: requires distinct span ids, as assembly guarantees; without them the walk need not end.
- KeepPolicy.DefaultPolicy.Evaluate: the governor is the policy itself; token buckets are values held in the maps, so sharing one bucket object between two keys is not captured; the conversion of a negative floor to an unsigned number, which the language leaves open, truncates toward zero.
- LiveTopology.LiveGraph.UpsertEdge: edges are values held in the map; per-operation statistics and the service set are not modelled.
- LiveTopology.LiveGraph.Consume: peer and protocol extraction from attributes is an input, and the sweeps of vanished edges and stale pending calls are not modelled.
- LiveTopology.LiveGraph.WarmStart: loaded histograms are assumed to have sixteen buckets, which the source's array type guarantees.
- RemediationGuard.Guard.ExecuteAction: audit events are not recorded, and the verb, payload and scope checks are one parameter.
- RemediationGuard.Guard.ApproveAction: the authorizer's answer, when one is wired, is a parameter.
- GuardSafety.ExecutedOnceAndApproved: the approver differs from the proposer recorded in the action, which SubmitterNeverApproves relates to the submitter; the expiry is the one checked when the execution starts.
- GuardSafety.SameProposalRefused: the digest is assumed not to collide.
- AuditChain.AuditLog.Append: sequence numbers are unbounded.
- AuditChain.VerifyReportsLeastChange: speaks of overwritten events, the other stored fields being VerifyExactly's; assumes no overwritten message collides with the one it replaces and timestamps that fit in 64 bits.
- InvestigationLoop.Engine.Investigate: the environment answers each iteration; interest predicates, the report text and the per-step deadline are not modelled.
- InvestigationLoop.Engine.ReplayRecorded: new ids and cleared times of the copied steps are not modelled, and the live-diff replay is left out.
- IncidentHistory.IncidentsTell: over runs of Add and Suppress, the two operations that change incidents; statuses set from outside are not modelled.
- IncidentGrouper.Grouper.AttachEvent: severity, epicenter, blast radius, deploy markers and exemplars are not modelled.
- IncidentGrouper.Grouper.Add: one tenant at a time, with a topology that does not change; the neighbour cache then never matters.
- EditDistance.MatchService: splitting the text into words and lower-casing are inputs, and distances are over characters.
