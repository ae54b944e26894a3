# Connector-backed portfolio impact, verified

A Dafny model of the part of the system that decides whether a pricing engine
may be released: a portfolio is sliced into batches, at-least-once delivery
hands the batches to workers that lease them, price their rows locally and
through a black-box connector and write a checkpoint, and an aggregation turns
the checkpoints into money totals and a verdict that a mission's release
decision rests on. Beside it stand three smaller pieces of the same product:
the mission supervisor's decision, the range-table validator and the mission
listing.

| file | what it holds |
|---|---|
| `Arithmetic.dfy` | the little integer arithmetic that slicing and paging share |
| `Sorting.dfy` | the stable sort used throughout, and when its result is determined by the elements |
| `ImpactModels.dfy` | job, batch and aggregate records |
| `ImpactStore.dfy` | lease, completion and finalization as atomic steps, and the in-memory store that performs them |
| `RowOutcomes.dfy` | what is concluded about one row, and the condensed result a checkpoint keeps |
| `Processor.dfy` | one attempt at a batch: first pass, re-attempt and merge |
| `Planning.dfy` | slicing into batches |
| `Aggregation.dfy` | totals, completeness and verdict |
| `Coordinator.dfy` | dispatch rounds, the polling loop, finalizing |
| `Backpressure.dfy` | which outstanding batches the dispatch limit bounds across polls |
| `Protocol.dfy` | everything above as one state machine, its invariant, and the shape of its steps |
| `RowPartition.dfy` | every row of a recorded batch accounted for once |
| `Fencing.dfy` | DONE is final, completions are fenced, leases are bounded, settlement is stable |
| `OwnerReuse.dfy` | a run in which a reused owner loses evidence |
| `Evidence.dfy` | listings condense rows; resolved rows stay; exposure is a lower bound |
| `Release.dfy` | one verdict, written once, and what PASS_ELIGIBLE says about every row |
| `Reasons.dfy` | which recorded reasons and cancel requests the verdict sees |
| `Schedule.dfy` | any finished run equals one sequential pass |
| `Resilience.dfy` | circuit breaker and pacer |
| `RemotePricing.dfy` | chunked concurrent connector calls and the client's reply check |
| `RangeTables.dfy` | overlap and coverage checks of range tables |
| `MissionListing.dfy` | the widening-window listing |
| `Supervisor.dfy` | the release decision and the model's part in it |

`dafny verify dfyconfig.toml` checks all of it.

## How the protocol is modelled

A `World` holds the stored documents, the deliveries and coordinators under
way, and history: one outcome per row of every batch (`ledger`), because a
checkpoint keeps only a count of its matched rows. A `Step` is one atomic store
operation with the local work around it: creating batches, a delivery's lease,
its write, its crash with or without giving the lease back, the clock, a cancel
request, a coordinator's budget note, and the three separate reads and writes
of finalizing. A run is any sequence of steps; a step that is not enabled
changes nothing. Theorems about runs start from `Init`, or from any world that
satisfies the invariants every reachable world is proved to satisfy.

Three hypotheses appear by name. `FreshOwners` says no lease owner is used
twice; it is needed for fencing and for evidence to be monotone and for nothing
else. `backend/app/api/worker_endpoint.py:128` derives the owner from the
message id, so a redelivery can break it; `OwnerReuse` gives such a run and
`Fencing.FencedExactlyByAttempt` says exactly when a completion is fenced
without it. `Consistent` says the connector gives a row one answer whenever it
answers at all; `Schedule.AttemptIsConsistent` derives it from the individual
exchanges. `Setup.Valid` holds what configuration validation guarantees: a
positive batch size and a tolerance that is not negative.

Money is exact (`real`); identities are stated on totals before they are
rendered to cents. The authoritative premium of a row and the connector's
reply are inputs.

A run may contain any coordinator note, also one that no coordinator would
write; theorems about all runs then hold whatever the coordinators decide, and
`Coordinator.Recorded` says which note an exit from the loop leaves. A mission
is modelled for a package, a connector, or both. Its one caller gives one of the
two; given both it would pass on packages without a difference alone, without a
scan (`Supervisor.PackageMasksConnector`).

## Where the code and its documentation differ

The model follows the code.

- The breaker is described as letting a single trial call through after its
  cooldown. Until a call fails it lets every call through
  (`Resilience.HalfOpenUntilNextFailure`), so there is a single trial exactly
  when no other call asks before one has failed
  (`Resilience.SingleTrialExactlyWhen`).
- The design document says at most the configured number of batches is
  outstanding. A batch whose lease has expired, or that has stalled, is not
  counted: `Backpressure.ExpiredLeaseExceedsLimit` is a run of four polls that
  ends with two batches outstanding under a limit of one, since the first
  batch's lease runs out while its worker is still at it.
  `Backpressure.LimitHoldsExactlyWhen` says, from what exists before a round,
  exactly when the limit holds after it, and
  `Backpressure.LimitHoldsWhileOnTime` that it holds over all polls while
  nothing is late.
- The design document says an exhausted budget never passes. Each coordinator
  overwrites the reasons of the one before it, so of two coordinators of one job
  the second, leaving as finished, can erase the exhausted budget that the first
  left by, and the scan passes (`Reasons.RecordedReasonIsLost`). What decides is
  the last note on record when the job is read for finalizing
  (`Reasons.PassesByLastNote`).
- The probe-round loop is said never to re-run a scenario of the mission. It
  never re-runs one of an earlier round, but a candidate that one answer names
  twice runs twice, in a later round (`Supervisor.RepeatedIdRunsTwice`) and in
  the tests the model selects first (`Supervisor.RepeatedSelectionRunsTwice`);
  `Supervisor.NoScenarioTwiceExactlyWhen` gives the exact condition.
- Overlap is meant to say that two ranges share a value; for ranges seen to
  overlap it does exactly when neither is empty (`RangeTables.OverlapIsExact`);
  an empty range inside a wider one overlaps it
  (`RangeTables.EmptyRangeOverlaps`).
- A table with no reported gap is meant to cover its whole domain; it does
  exactly when every value written as a bound matches a row
  (`RangeTables.CoveredExactlyWhenBoundsAre`,
  `RangeTables.TouchingRowsLeaveAPoint`). Gaps are judged between neighbours
  only, so nested rows raise false alarms (`RangeTables.ReportedGapIsReal`).
- The listing says a mission can never be starved out by records filtered out
  afterwards. That holds for every page exactly when no matching run of the
  caller lies beyond reach (`MissionListing.AllPagesAgreeExactlyWhen`). The
  in-memory store takes the newest thousand runs of all tenants before it picks
  the caller's, so newer runs of others can hide them without the cap being
  reported (`MissionListing.NewerRunsOfOthersHideMine`). With tenant queries only
  the cap can hide a run, and it does behind a thousand newer ones that the
  filter drops (`MissionListing.CapHidesOlderRuns`).

## Model

| member | source | states |
|---|---|---|
| ImpactStore.EnsureBatchesKeepsRecords | backend/app/impact/store.py:151-157 | creating batches again never touches a stored record and adds exactly the missing numbers |
| ImpactStore.SortedListing | backend/app/impact/store.py:164-167 | sorting the records of a bucket by number lists each exactly once, in strictly increasing order |
| ImpactStore.InMemoryImpactStore.CreateJob | backend/app/impact/store.py:124-128 | the first job stored under a key wins; later creations return it, and no other key changes |
| ImpactStore.InMemoryImpactStore.Update | backend/app/impact/store.py:135-141 | the fields given are applied to this job alone; an absent job stays absent |
| ImpactStore.InMemoryImpactStore.CreateBatches | backend/app/impact/store.py:151-157 | the bucket afterwards is the batch-creation function of the one before; other tenants and jobs are untouched |
| ImpactStore.InMemoryImpactStore.ListBatches | backend/app/impact/store.py:164-167 | returns every record of the bucket once, by increasing number |
| ImpactStore.InMemoryImpactStore.LeaseBatch | backend/app/impact/store.py:169-183 | answer and new state are those of the atomic lease step: closed jobs, DONE, live leases and spent attempts refuse |
| ImpactStore.InMemoryImpactStore.CompleteBatch | backend/app/impact/store.py:185-196 | accepted exactly when the caller holds the lease, expired or not; then result, state and lease fields change together |
| ImpactStore.InMemoryImpactStore.FinalizeJob | backend/app/impact/store.py:198-208 | the first writer's status and aggregate are stored; later writers get them back |
| ImpactStore.LeaseAnswersExactly | backend/app/impact/store.py:51-69 | which state of job and record draws which of the six answers, each exactly, and every field a granted lease writes |
| ImpactStore.CompletionExactly | backend/app/impact/store.py:185-196 | who may complete a batch, and every field a completion or a mere release writes |
| ImpactStore.FinalizationExactly | backend/app/impact/store.py:198-208 | only the first verdict is stored, and which fields it sets |
| RowOutcomes.SummarizePartitions | backend/app/impact/processor.py:230-252 | the condensed result of a batch counts every row exactly once |
| RowOutcomes.SummarizePermuted | backend/app/impact/processor.py:230-252 | pricing rows in another order changes no count and only rearranges the lists |
| RowOutcomes.SummaryMembers | backend/app/impact/processor.py:230-252 | each list names exactly the rows with that outcome |
| Processor.Execute | backend/app/impact/processor.py:168-252 | the loops of an attempt compute `ExecuteResult` of the leased record and the replies, for any record and any replies |
| Processor.OutcomeMeans | backend/app/impact/processor.py:183-228 | what an attempt concludes about a row, read off the policy and the reply: out of scope exactly for a wrong product or a date outside the period, a failed calculation inconclusive for good, a comparison exactly for a premium and a candidate, matched exactly within tolerance |
| Processor.RefusedExactly | backend/app/impact/processor.py:132-138 | a delivery ends as a duplicate exactly when its batch is done or held, as exhausted exactly when no attempts are left, and otherwise as closed |
| Processor.WriteBack | backend/app/impact/processor.py:140-164 | after its lease, whatever happened to the store: a vanished job closes the delivery, an attempt that raises only gives its lease back, and a result is written exactly by the lease holder, anyone else learns that the lease is lost |
| Processor.Process | backend/app/impact/processor.py:124-164 | a whole delivery with nothing in between: refused, it changes nothing; granted, it writes its result and the state that result calls for, or gives its lease back |
| Processor.MergedRow | backend/app/impact/processor.py:175-184 | after a re-attempt a transient row has its new outcome and every other row the outcome it had |
| Processor.MergedContents | backend/app/impact/processor.py:175-239 | the rows kept and the rows priced again make up the whole slice, none twice |
| Processor.ExecuteMerges | backend/app/impact/processor.py:168-252 | what an attempt writes is the summary of one outcome per row of the slice, whether it is the first pass or a re-attempt |
| Planning.SliceIsLargest | backend/app/impact/coordinator.py:94-97 | a plan covers the most rows the budgets allow, in just enough batches |
| Planning.TilesPartitionRows | backend/app/impact/coordinator.py:95-97 | batches are non-empty slices and every row in scope lies in exactly one |
| Planning.TileBounds | backend/app/impact/coordinator.py:141-144 | each batch starts where the one before ends, and the last ends with the rows in scope |
| Aggregation.AggregateJob | backend/app/impact/aggregate.py:111-245 | the accumulator loops and sorts compute `AggregateOf` |
| Aggregation.AggregateConserves | backend/app/impact/aggregate.py:152-184 | compared, inconclusive, out-of-scope and unprocessed rows add up to the total; net and absolute exposure combine the same over- and undercharges; a pass compared every eligible row |
| Aggregation.ExposureBalances | backend/app/impact/aggregate.py:159-184 | net = over - under, absolute = over + under = the sum of absolute deltas, and the counts miss only zero deltas |
| Aggregation.ExposureBills | backend/app/impact/aggregate.py:166-183 | overcharges are the rows where the candidate premium is above the expected one and sum to what is above, undercharges likewise, and the net is the candidates less the expected premiums |
| Aggregation.ReasonsExactly | backend/app/impact/aggregate.py:217-226 | which reasons a verdict gives, each exactly when its cause is there |
| Aggregation.VerdictMeans | backend/app/impact/aggregate.py:228-245 | a mismatch blocks whatever else happened, then a cancel request decides, and a pass needs the whole portfolio processed, conclusive, done and not cut short; status, completeness and the lower-bound flag agree |
| Aggregation.AggregateForgetsOrder | backend/app/impact/aggregate.py:121-151 | the order in which batches are listed does not matter |
| Coordinator.DispatchRound | backend/app/impact/coordinator.py:183-196 | one round sends the first dispatchable batches that fit beside those in flight, skipping ones the dispatcher refuses, and records when each was sent |
| Coordinator.RoundIsBounded | backend/app/impact/coordinator.py:183-196 | a round sends at most the room left, only dispatchable batches, none twice, and passes none over while there is room |
| Coordinator.DispatchableExactlyWhen | backend/app/impact/coordinator.py:262-271 | a batch is wanted exactly when the store would lease it at once, it was not sent lately without being heard of, and it has rested for its backoff |
| Coordinator.SentCanBeLeased | backend/app/impact/coordinator.py:187-197 | so a round sends only batches of which a delivery would be granted a lease at once |
| Coordinator.SentCountsAsInFlight | backend/app/impact/coordinator.py:251-272 | an unchanged batch counts as in flight on a later poll exactly when it was not sent over an expired lease, is no newer than the send, and the stall time has not passed |
| Coordinator.PollUntilExit | backend/app/impact/coordinator.py:158-198 | the loop ends at the first poll with a reason to leave, within ceil(mission / interval) + 1 polls, and each earlier poll is followed by its dispatch round |
| Coordinator.LeaveExactly | backend/app/impact/coordinator.py:162-185 | which observation ends the loop, and with which of the reasons that hold: cancel, then settled, then systemic failure, then deadline |
| Coordinator.SettledExactlyWhen | backend/app/impact/coordinator.py:243-249 | a batch of an open job is settled if and only if it is DONE, or nobody holds it and no delivery will ever be granted a lease of it |
| Coordinator.FinishedExactlyWhen | backend/app/impact/coordinator.py:177-178 | so the loop ends as finished if and only if it is not cancelled and that holds of every listed batch |
| Backpressure.OverdueExactly | backend/app/impact/coordinator.py:251-260 | an outstanding batch is missed by the in-flight count exactly when its lease has expired, or it was sent and the stall time has passed |
| Backpressure.RoundAccounts | backend/app/impact/coordinator.py:183-196 | after a round the batches outstanding are those that were in flight, those sent, and the overdue ones not sent again, none counted twice |
| Backpressure.LimitHoldsExactlyWhen | backend/app/impact/coordinator.py:183-196 | the limit holds after a round if and only if at most the limit was in flight before it and either the wanted batches fill the room and every overdue one is among the first of them, or they leave room for the overdue ones not wanted |
| Backpressure.LimitHoldsWhileOnTime | backend/app/impact/coordinator.py:158-198 | over all polls the outstanding batches stay within the limit while no lease expires, nothing stalls and nobody else starts a batch |
| Backpressure.ExpiredLeaseExceedsLimit | backend/app/impact/coordinator.py:251-272 | for any portfolio of two batches, a run of four polls with a limit of one that ends with both outstanding: each poll lists the batches of a reachable world, the clocks advance as the loop demands and no poll gives a reason to leave |
| Coordinator.RunLoop | backend/app/impact/coordinator.py:151-202 | with the row budget, deadline and systemic halt that a run leaves on record for the exit it took |
| Coordinator.RecordedExactly | backend/app/impact/coordinator.py:151-202 | which budgets and halt reason each exit leaves on record, each exactly when its cause is there |
| Coordinator.PollsAreBounded | backend/app/impact/coordinator.py:131-198 | polls that gave no reason to leave came before the deadline, so the next is within the bound |
| Coordinator.ExitRulesOutPass | backend/app/impact/coordinator.py:172-202 | the record a coordinator writes on leaving by deadline, systemic failure or with rows beyond the budget, if it is what finalizing reads, rules out a pass; what overwriting it does is in Reasons |
| Coordinator.StoreVerdict | backend/app/impact/coordinator.py:234-239 | whatever has happened since a verdict was computed, the first one stored is the answer |
| Coordinator.FinishJob | backend/app/impact/coordinator.py:225-239 | with nothing in between, a finalized job answers with its stored verdict; any other is aggregated from its batches and finalized with the result |
| Protocol.StepSound | backend/app/impact/store.py:151-208 | every step keeps the invariant: each record belongs to its slice, condenses one outcome per row, stays within its attempts, and is DONE only if completed and free of transient rows |
| Protocol.RunSound | backend/app/impact/store.py:151-208 | so does every run, whatever owners it uses |
| Protocol.StepShape | backend/app/impact/store.py:169-196 | the only ways a step touches batches: creation, one lease granted, one lease given up |
| RowPartition.RowsPartitioned | backend/app/impact/processor.py:176-252 | on any run a recorded batch splits its slice exactly once into matched, affected, out-of-scope and inconclusive rows, each as its local pricing allows; DONE implies completed and no transient row |
| RowPartition.RecordedRowMeans | backend/app/impact/processor.py:183-228 | on any run a recorded row is out of scope exactly for a wrong product or a date outside the period, and compared only with its own premium |
| RowPartition.SummarySplits | backend/app/impact/models.py:112-118 | counts add up to the slice, no list repeats a row or names a foreign one, and each row is in exactly one list unless it matched |
| RowPartition.TransientIsListed | backend/app/impact/processor.py:156 | a result asks for another attempt exactly when one of its rows is transient |
| Fencing.DoneForever | backend/app/impact/store.py:54-55 | nothing later changes a DONE batch or what is recorded about its rows |
| Fencing.WritesAreFenced | backend/app/impact/store.py:185-196 | with fresh owners a completion is accepted exactly from the lease holder, then finds record and outcomes as it leased them; a superseded owner writes nothing |
| Fencing.FencedExactlyByAttempt | backend/app/impact/store.py:188 | with owners reused at will, a lease holder sees what it leased if and only if no further lease was granted meanwhile |
| Fencing.LeasesAreBounded | backend/app/impact/store.py:60-65 | over any run accepted completions are at most the leases, and leases at most batches times attempts |
| Fencing.SettledForever | backend/app/impact/coordinator.py:243-249 | a settled batch stays settled in every later state and time, even after a late completion |
| OwnerReuse.ReusedOwnerLosesEvidence | backend/app/api/worker_endpoint.py:128 | a concrete run in which a redelivery's reused owner lets a stale completion erase a recorded mismatch |
| Evidence.GatherBacked | backend/app/impact/aggregate.py:120-148 | the accumulated result of a listing is the summary of the rows behind it, in row order |
| Evidence.AggregateReflectsRows | backend/app/impact/aggregate.py:111-245 | an aggregate depends only on the rows behind its listing and the batch states, not on batch boundaries |
| Evidence.AggregateCountsRetries | backend/app/impact/aggregate.py:151 | the transient count of an aggregate is the number of rows another attempt would price |
| Evidence.AggregateCountsRows | backend/app/impact/aggregate.py:120-160 | every count of an aggregate is the number of rows with that outcome, or of batches in that state |
| Evidence.FailedForGoodExactly | backend/app/impact/coordinator.py:277-281 | a batch counts towards the halt exactly when it is DONE, no row of it was compared, and some row should have been |
| Evidence.HaltMeansNothingCompared | backend/app/impact/coordinator.py:274-276 | the scan is halted early only while no listed row was compared |
| Evidence.HaltExactlyWhen | backend/app/impact/coordinator.py:274-282 | the scan is halted early if and only if no recorded row was compared and at least three batches are DONE with nothing but failed rows, or rows out of scope beside them |
| Evidence.EvidenceGrows | backend/app/impact/processor.py:175-184 | with fresh owners a resolved row keeps its outcome for the rest of the run |
| Evidence.ExposureNeverDecreases | backend/app/impact/aggregate.py:166-183 | so the absolute exposure of an aggregate is a lower bound on that of any later one |
| Release.OneVerdictForAll | backend/app/impact/coordinator.py:225-239 | however coordinators race, each that returns has the one stored aggregate, and it conserves rows and money with every mismatch counted as over or under |
| Release.ListedIsCoherent | backend/app/impact/aggregate.py:120-245 | conservation, agreement of the verdict's fields, and money that is that of the mismatches on record, with its sign, hold for any listing a coordinator may have read, however stale |
| Release.VerdictIsWrittenOnce | backend/app/impact/store.py:198-208 | after finalization status and aggregate never change, and a cancel request is never withdrawn |
| Release.ShutJobsGrantNoLease | backend/app/impact/store.py:174-175 | after finalization or a cancel request no lease is ever granted |
| Reasons.NoteOnRecord | backend/app/impact/coordinator.py:200-202 | after any run the reasons on record are those of the last coordinator to leave its loop, and the cancel flag says whether a cancel was ever asked |
| Reasons.ReasonReadRulesOutPass | backend/app/impact/aggregate.py:224-245 | a cancel request or reason on record when a coordinator reads the job rules out a pass for its verdict, whatever happens before it lists the batches |
| Reasons.PassesByLastNote | backend/app/impact/coordinator.py:225-239 | a coordinator that goes on to list and store answers PASS_ELIGIBLE if and only if no reason and no cancel was on record when it read the job and every row is cleared when it lists |
| Reasons.RecordedReasonIsLost | backend/app/impact/coordinator.py:175-202 | for any portfolio of one batch, a run in which one coordinator leaves at its deadline and another as finished, each note being what its exit records; the second overwrites the exhausted budget and the verdict is PASS_ELIGIBLE |
| Release.ReleaseIsSound | backend/app/impact/aggregate.py:217-245 | whenever a scan has answered PASS_ELIGIBLE, every row of the whole portfolio is recorded for good as out of scope or within tolerance |
| Release.PassedPolicies | backend/app/impact/aggregate.py:217-245 | so after a pass every policy in scope had its own premium calculated and a candidate premium within tolerance of it |
| Release.ReadJobExactly | backend/app/impact/coordinator.py:229-233 | a coordinator that finds the job finalized answers with the stored verdict, any other goes on with the job as read |
| Release.PassExactlyWhenCleared | backend/app/impact/aggregate.py:207-245 | aggregating the stored checkpoints passes if and only if every row is cleared and nothing cancelled, halted or cut short the scan |
| Schedule.AttemptIsConsistent | backend/app/impact/processor.py:293-362 | an attempt against a connector with fixed answers collects only those answers and transient errors |
| Schedule.ScheduleIndependence | backend/app/impact/processor.py:168-252 | any run that ends with all batches DONE aggregates, in any listing order, to what one sequential pass over the rows finds |
| Schedule.PartialScanIsLowerBound | backend/app/impact/aggregate.py:166-183 | at any point of such a run the reported absolute exposure is at most that of the full scan |
| Resilience.CircuitBreaker.Allow | backend/app/impact/resilience.py:70-80 | answer and new state are those of the breaker's state function |
| Resilience.CircuitBreaker.RecordFailure | backend/app/impact/resilience.py:86-95 | a permanent failure trips for good; others count towards the threshold and open at it |
| Resilience.OpenExactlyAtThreshold | backend/app/impact/resilience.py:49-95 | over any events the breaker is open exactly when its failure count is at the threshold, and only after that many failures since the last success |
| Resilience.TransientExactly | backend/app/impact/resilience.py:15-26 | retryable failures and four others may pass, no more |
| Resilience.SystemicExactly | backend/app/impact/resilience.py:17-46 | eight codes concern every row until the configuration changes, no more |
| Resilience.OpensWithThresholdFailure | backend/app/impact/resilience.py:86-95 | from closed, failures open the breaker once, with the one that makes their number the threshold |
| Resilience.LastEventDecides | backend/app/impact/resilience.py:82-95 | a success closes the breaker unless a permanent code stands, and a permanent failure puts its own code on record |
| Resilience.OpeningsAreBounded | backend/app/impact/resilience.py:49-95 | non-permanent openings are at most 1 + successes + elapsed time / cooldown |
| Resilience.PermanentIsForever | backend/app/impact/resilience.py:70-90 | after a permanent code nothing is allowed again |
| Resilience.FailsFastWhileCooling | backend/app/impact/resilience.py:70-80 | while the cooldown runs and nothing succeeds, an open breaker refuses every call |
| Resilience.HalfOpenUntilNextFailure | backend/app/impact/resilience.py:75-79 | from the half-open state, over any events within a cooldown and without a success, a call is allowed if and only if none has failed |
| Resilience.SingleTrialExactlyWhen | backend/app/impact/resilience.py:50-53 | of an open breaker whose cooldown is over, a single trial is let through exactly when no other call asks before one has failed |
| Resilience.AsyncPacer.Acquire | backend/app/impact/resilience.py:107-117 | a caller starts at the later of its clock and the next slot, and slots stay one interval apart for callers in any order |
| Resilience.StartsApart | backend/app/impact/resilience.py:107-117 | the k-th start after a given one is at least k intervals later |
| Resilience.WindowHoldsFewStarts | backend/app/impact/resilience.py:98-117 | any window of length W holds at most W / interval + 1 starts |
| Resilience.BatchesShareTheRate | backend/app/impact/config.py:66-68 | the pacers of all batches in flight start at most max_qps * W + max_inflight requests in a window of length W |
| RemotePricing.ReplyIsBijection | backend/app/connectors/client.py:292-300 | a batch reply is accepted exactly when its results correspond one-to-one with the request |
| RemotePricing.AcceptedHasAll | backend/app/impact/processor.py:321-331 | an accepted reply has a result to look up for every row of its chunk |
| RemotePricing.AcceptedAsSent | backend/app/impact/processor.py:321-326 | in an accepted reply each item gets the very result that names it |
| RemotePricing.RefusedReplies | backend/app/connectors/client.py:269-299 | a refused reply carries the code of the first check it fails and is not worth repeating |
| RemotePricing.ItemOutcomeMeans | backend/app/impact/processor.py:325-331 | a row is priced exactly by a number; what error anything else is, and that only two item errors are transient |
| RemotePricing.ExecuteRequest | backend/app/connectors/client.py:181-219 | the first attempt that is not a retryable failure decides, or the last one allowed, with one retry reported for each attempt before it |
| RemotePricing.ChunksTile | backend/app/impact/processor.py:358 | chunks tile the pending rows in order, all of full size but the last |
| RemotePricing.ChunkSizeExactly | backend/app/impact/processor.py:275-277 | as many rows as the connector and the batch size allow, but at least one |
| RemotePricing.ChunksAreAccepted | backend/app/connectors/contract.py:167-182 | every chunk passes the request's size and unique-id checks and stays within the advertised limit |
| RemotePricing.ChunkSender.TryAdmit | backend/app/impact/processor.py:293-301 | cancellation, then the breaker, decide whether a chunk is sent or failed, with the code and transience filed for each of its rows |
| RemotePricing.ChunkSender.FileReply | backend/app/impact/processor.py:302-356 | a finished exchange files one outcome per row and tells the breaker success or failure |
| RemotePricing.AdmittedExactly | backend/app/impact/processor.py:293-301 | a call is sent exactly when neither cancelled nor held back by the breaker, and otherwise which error each of its rows gets |
| RemotePricing.FailedExchangeFiled | backend/app/impact/processor.py:352-356 | a failed exchange fails every row of its chunk with its own code and transience, and the breaker hears of it |
| RemotePricing.AcceptedReplyHeard | backend/app/impact/processor.py:322-335 | an accepted reply counts against the breaker exactly when it prices no row and some error in it is transient |
| RemotePricing.RowsGetTheirOwnReply | backend/app/impact/processor.py:321-326 | whatever the other calls do before or after, each row has the outcome of its own result, and the candidate premium exactly when that is a number |
| RemotePricing.EveryRowAnsweredOnce | backend/app/impact/processor.py:261-362 | however the calls interleave, when all have ended each pending row was given exactly one outcome, and no other row any |
| RemotePricing.EveryPendingRowAnswered | backend/app/impact/processor.py:261-267 | whether or not the connector resolves, each pending row has an outcome and no other row has; without a connector it is a permanent error |
| RemotePricing.AttemptIsAnswerable | backend/app/impact/processor.py:218-228 | so every row an attempt compares has an answer |
| RemotePricing.FaithfulConnectorFilesAnswers | backend/app/impact/processor.py:293-356 | with fixed answers and only transient, non-systemic failures, every outcome filed is the row's answer or transient |
| RangeTables.ValidateRangeCoverage | backend/app/ipir/tables.py:133-195 | reports exactly the unranked overlapping pairs and, where coverage is owed, exactly the neighbours that leave a space |
| RangeTables.AmbiguityReportedExactly | backend/app/ipir/tables.py:150-175 | an ambiguity is reported if and only if two range rows of the table overlap without distinct explicit priorities |
| RangeTables.OverlapIsExact | backend/app/ipir/tables.py:121-130 | ranges sharing a value always overlap; overlapping ranges share one exactly when neither is empty, open ends and exclusive bounds included |
| RangeTables.OverlapExactlyWhen | backend/app/ipir/tables.py:121-130 | ranges overlap exactly when each starts below the other ends, or at that point with both including it |
| RangeTables.ValidExactly | backend/app/ipir/tables.py:43-54 | a range is accepted exactly when it leaves some value out and some value lies between its bounds |
| RangeTables.EmptyRangeOverlaps | backend/app/ipir/tables.py:121-130 | a range that starts and ends at one excluded point is valid and empty, and overlaps every wider range around it |
| RangeTables.AmbiguityCheckIsSound | backend/app/ipir/tables.py:159-175 | with no overlap reported, rows that match one value have distinct explicit priorities; none is reported if and only if that holds and overlaps of empty ranges are ranked too, so on non-empty ranges conversely |
| RangeTables.HighestPriorityIsUnique | backend/app/ipir/tables.py:56-71 | then a value that any row matches has exactly one row of highest priority |
| RangeTables.GapCheckIsSound | backend/app/ipir/tables.py:177-193 | with no gap reported every value between the lowest and highest bound lies in the closure of some row, and in a row if all bounds are inclusive, although ranges may nest |
| RangeTables.CoveredExactlyWhenBoundsAre | backend/app/ipir/tables.py:177-193 | with no gap reported every value in reach matches a row if and only if every value written as a bound does |
| RangeTables.TouchingRowsLeaveAPoint | backend/app/ipir/tables.py:177-193 | any two rows excluding their common end leave that bound uncovered without a report |
| RangeTables.ReportedGapIsReal | backend/app/ipir/tables.py:184-193 | a reported gap holds an uncovered value if and only if no earlier row reaches across it |
| MissionListing.ListMissions | backend/app/api/missions.py:390-422 | page, count and stop reason of the widening loop, which ends; with tenant queries the page is that of the unbounded query unless it stopped only because of the cap |
| MissionListing.ShownExactly | backend/app/api/missions.py:310-347 | which runs the unbounded query shows, by owner, version, sample flag, status, mode and decision |
| MissionListing.ScanExactly | backend/app/api/missions.py:393-415 | the loop stops at the first of the windows needed plus fifty, doubled up to a thousand, that gives a reason to, and the reason is the first that holds |
| MissionListing.ListingAgreesExactlyWhen | backend/app/api/missions.py:400-415 | one page equals that of the unbounded query if and only if the scan found enough matches, or missed none, or the page lies past the last match |
| MissionListing.AllPagesAgreeExactlyWhen | backend/app/api/missions.py:300-307 | every page that can be asked for does if and only if no matching run of the caller lies beyond the first thousand that the store looks at |
| MissionListing.NewerRunsOfOthersHideMine | backend/app/storage/interfaces.py:87-94 | a thousand newer runs of other tenants empty the caller's first page, the loop having stopped because the records ran out |
| MissionListing.CapHidesOlderRuns | backend/app/api/missions.py:400-415 | with tenant queries, a thousand newer runs that the filter drops empty a first page that should show an older match, and only the cap stopped the loop |
| MissionListing.SmallStoresAreListedExactly | backend/app/api/missions.py:305-307 | it always does when the runs to scan fit under the cap |
| Supervisor.InvestigationBudget.AskGemini | backend/app/agents/supervisor.py:268-309 | a call is made and counted only within the budget |
| Supervisor.InvestigationBudget.RunProbes | backend/app/agents/supervisor.py:1257-1326 | probes are classified as match, mismatch or inconclusive, one by one, and remembered as executed |
| Supervisor.InvestigateFurther | backend/app/agents/supervisor.py:1328-1393 | later rounds run pool ids that no earlier round ran, stay within the rounds and calls allowed, and can only add to mismatches already found |
| Supervisor.RoundIsFirstFive | backend/app/agents/supervisor.py:1377-1393 | a round runs the first five ids named that are in the pool |
| Supervisor.RoundsExactly | backend/app/agents/supervisor.py:1328-1393 | rounds go on exactly as long as rounds and calls are left, something disagrees, and the answer is insufficient and names an untested candidate |
| Supervisor.ExplainableExactly | backend/app/agents/supervisor.py:1753-1767 | there is something to explain exactly when a probe disagreed with a known cause and the first probe that did not agree returned both premiums |
| Supervisor.CleanEquivalence | backend/app/agents/supervisor.py:786-984 | two packages without a difference are decided by the first sample probes and the review flag, without the model |
| Supervisor.PackageOutcomeExactly | backend/app/agents/supervisor.py:810-984 | two packages without a difference pass, block, go to review or raise exactly by the review flag and the first five tests |
| Supervisor.Decide | backend/app/agents/supervisor.py:2058-2168 | blocking reasons, missing evidence and missing stages, then review reasons, then pass |
| Supervisor.StageEightExactly | backend/app/agents/supervisor.py:2058-2168 | which evidence blocks and what a pass needs, each exactly, whatever stages or sections are missing |
| Supervisor.ReachDecision | backend/app/agents/supervisor.py:2128-2194 | with the stages of every branch before it recorded, no stage is missing at the decision, and afterwards all twenty have an outcome |
| Supervisor.StageRecorder.Backfill | backend/app/agents/supervisor.py:207-217 | an early exit leaves recorded stages alone and marks all others not applicable |
| Supervisor.RunMission | backend/app/agents/supervisor.py:512-2194 | the outcome of an uncancelled mission is a function of its inputs alone, whatever the model answers or fails to; calls stay within the budget; every stage ends with an outcome, and after a pass none has failed or asks for review |
| Supervisor.DifferencesBlock | backend/app/agents/supervisor.py:2094-2095 | without a connector packages that differ always block, and a mission without a target raises |
| Supervisor.RepeatsStayWithinRounds | backend/app/agents/supervisor.py:1337-1393 | the probes of a mission repeat no scenario if and only if the first tests and each round repeat none |
| Supervisor.NoScenarioTwiceExactlyWhen | backend/app/agents/supervisor.py:1323-1393 | a mission runs no scenario twice if and only if its first tests repeat none and no answer that led to a round named a candidate again among the first five |
| Supervisor.SelectionDistinctExactlyWhen | backend/app/agents/supervisor.py:1104-1106 | selected tests repeat a scenario exactly when the answer names a candidate twice |
| Supervisor.RepeatedSelectionRunsTwice | backend/app/agents/supervisor.py:1104-1106 | a package mission whose selecting answer names a candidate twice runs it twice |
| Supervisor.RepeatedIdRunsTwice | backend/app/agents/supervisor.py:1377-1393 | a connector mission with a mismatch whose answer names an untested candidate twice runs it twice |
| Supervisor.ConnectorPassExactlyWhen | backend/app/agents/supervisor.py:2058-2168 | a connector mission passes if and only if nothing flagged it, some probe ran and all agreed, and a configured scan was PASS_ELIGIBLE |
| Supervisor.ConnectorOutcomeExactly | backend/app/agents/supervisor.py:1588-1600 | a connector mission is cancelled exactly when its scan ran and was cancelled, blocks exactly when a difference, a probe or an uncancelled scan proved a mismatch, and passes exactly when every probe agreed, nothing was flagged and a configured scan was complete without a mismatch |
| Supervisor.MissionPassRestsOnClearedRows | backend/app/agents/supervisor.py:2063-2082 | so a pass with an impact runner means every row of the portfolio was cleared |

## Left out

- Cohort, 30/60/90-day pipeline, means, medians, percentages, per-code error counts, retry and request counters and durations: informational; no verdict reads them.
- Mismatch examples and the evidence size limit: trimming examples does not touch a total or the verdict.
- Rounding to cents and the 28-digit decimal context: identities are stated on exact totals.
- Local premium calculation, product normalisation and input selection: a row's calculation is an input, abstracted to premium, rejected date or failure.
- The Firestore store: it has the same contract; its transactions are why each step is atomic. Pub/Sub, HTTP, TLS, ID tokens, DNS and asyncio mechanics appear only as nondeterministic delivery, abstract exchanges and interleaving.
- The capability probe, request size in bytes, and parsing of response bodies: a body parses to a response or does not.
- Semaphore and pacing delays inside an attempt's calls: they delay an exchange; any delay is allowed. The two-second cache of the cancel flag is an arbitrary answer of the check.
- Job identity hashing: job keys are assumed distinct where the inputs are. Snapshot identity is fixed with the job; a changed snapshot raises, which is a crash step.
- Non-connector exceptions inside an attempt and in probes of a package mission: the first is the crash step, the second is excluded or yields `Raised`.
- Coordinator.PollUntilExit: clocks and listings are inputs, and clocks advance by at least the poll interval; heartbeat, progress and stall logging are not modelled.
- Supervisor.RunMission: a probe's result is a function of its scenario, cancellation checks always say no, validation has passed, a portfolio scan yields its analytics, and remediation, explanation and reconciliation only spend calls and record their stages.
- RangeTables.ValidateRangeCoverage: bounds are finite numbers or open; a NaN bound is not modelled.
- MissionListing.ListMissions: with legacy records the tenant query merges two streams; here they are one list, newest first. Text is compared in upper case.
- Resilience.CircuitBreaker: thresholds of at least one and positive cooldowns, as configuration requires.
- Decimal text parsing, authentication, tenancy checks, settings parsing, evidence export, explanation text, monitoring, deployment and frontend: plumbing or libraries.
