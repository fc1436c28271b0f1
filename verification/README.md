# einf, verified

A model of the einf inference engine's control plane, speculative decoding, attention loop and data
layouts, and proofs of what they promise.  Check it with `dafny verify dfyconfig.toml`.

Objects whose methods update their fields are classes; each method is proved equal to a function on
the value of the object (`(View(), r) == old(View()).Operation(...)`), on any object, not only on
those that satisfy the invariant.  What the system promises is then proved about those functions,
over all inputs and all runs.

- **Control plane** (`BlockPool`, `KvCache`, `Request`, `Policy`, `SchedulerSpec`, `Scheduler`,
  `Rollback`): a reference-counted block pool, a prefix cache under chained digests, and a scheduler
  that admits, chunks, preempts, fails and cancels requests and applies results as a transaction.
  `SchedulerInv` and `SchedulerResults` hold the invariant and what every call does under it.
  `Transparency` adds the memory that block tables point into, and `Serving` whole runs: the shared
  cache is invisible.  `Fcfs` shows arrival order, and `IdleServer` that `run_until_idle`
  terminates under either policy; `SampleTiming` shows when a request samples, `GreedyServing` exactly
  when, under greedy sampling, a request is answered the plain greedy stream of its own prompt, and
  `EarlySampling` a run in which it is not.
- **Speculative decoding** (`Attention`, `GreedyDecoding`, `DraftVerification`, `ChainSpeculation`,
  `TreeSpec`, `TreeWalk`, `TreeExpansion`, `TreeConfidence`, `TreeSpeculation`): a cell of the cache is a
  term built from all cells that were visible when it was computed, so equal cells mean equal
  computations whatever the model is.  Chain and tree speculation are lossless against plain greedy
  decoding over whole generations, accept as much as the draft agrees with and keep the books of both
  caches; sampling keeps the target's distribution exactly.
- **Attention** (`OnlineSoftmax`, `CopyRing`): the online-softmax tile loop over reals, for any
  function with the two laws of `exp` that the proof needs (sums become products, positive
  everywhere), equals causal softmax; the ring of asynchronous copies is free of races.
- **Layouts** (`MoeAlign`, `MoeExperts`, `MoeOutput`, `W4A16`, `ModelInputs`): expert alignment and the fused MLP
  against its reference; packing 4-bit weights and back; pooled and bucketed inputs against fresh ones.

## Where the code differs from what it suggests

- Work is told apart by the length of the prompt alone.  A request preempted after it generated two or
  more tokens can be taken to be decoding while it is still being recomputed, and is then asked to
  sample in the middle of its context (`RecomputeSamplesEarly`), and a scheduler can get there
  (`EarlySampleReachable`).  It happens exactly in the runs of `SamplesAtEndExactly`; then a token is
  answered a second time, and the answer stays the greedy stream only if that token is due again
  (`ServedExactly`), which is not always so (`EarlySampleBreaksStream`).
- `rollback_advance` is registered before `advance` runs.  It is exact if and only if `advance` passes
  its first checks or there is nothing to cut off (`RollbackAdvanceExact`); the validation before it
  makes that so.
- A `fail_batch` that stops half way puts the state back but not the outstanding batch
  (`FailBatchUnwinds`).  It cannot stop half way in a reachable state (`FailBatchOk`).
- The branch of `retain_shared` for a sealed block that is free is never taken on a well-formed pool.
- A tree budget of 63 is accepted, but node 62 sets bit 63 of a signed word: a tree of 63 nodes cannot
  be masked (`FitsUpTo62`).  Every tree drafted has the size that budget, branch factor, vocabulary and
  depth give (`GrowSize`), so a step raises if and only if that size is 63 or a cache is full (`Step`);
  with two children, as soon as the depth is ten (`TenLevels`).  A level counts its nodes twice against
  the budget while it is filled (`AddLevel`).
- `prefill` does not reset a track: a second `generate` on the same engine computes its prompt behind what
  is live and then counts only the prompt's length.  It is greedy decoding of the prompt for every model
  if and only if the engine is new (`OnlyNewIsGreedy`).
- `generate` never tests the first token for `eos` (`FirstTokenUntested`).
- The reference sampler accepts when draw and ratio are equal, the vectorised one does not; so the
  reference accepts a token of probability zero on a draw of zero (`TestsAgree`).
- Clamping at 15 costs weights above 7.5 steps more than half a step (`QuantizationError`).

## Model

| member | source | states |
|---|---|---|
| BlockPools.ReserveEffect | crates/einf-control/src/block_pool.rs:130-155 | succeeds exactly when enough blocks are free, hands out that many distinct ones, the smallest ids, in use by the writer alone; otherwise the pool is untouched; the pool invariant holds either way |
| BlockPools.SealBlockEffect | crates/einf-control/src/block_pool.rs:157-168 | a new digest is published on the block; a known one changes nothing and names a different block |
| BlockPools.ReleaseEffect | crates/einf-control/src/block_pool.rs:179-199 | releasing any list of distinct used blocks never fails, takes one reference from each and nothing from others; blocks left without one are free and gone from the index |
| BlockPools.RetainEffect | crates/einf-control/src/block_pool.rs:217-238 | retaining distinct sealed blocks never fails and adds one reference to each, nothing else (a sealed block is never free, so the branch for that is dead) |
| BlockPools.ReuseAndReserveEffect | crates/einf-control/src/block_pool.rs:201-215 | reuse and reservation together are all or nothing, and the result lists the reused blocks and then fresh ones, all distinct |
| BlockPools.BlockPool.Reserve | crates/einf-control/src/block_pool.rs:130-155 | the object, with its loop, does exactly what the pool function says, on any pool at all |
| BlockPools.BlockPool.ReleaseBlocks | crates/einf-control/src/block_pool.rs:179-199 | same, for the releasing loop, with its error exits |
| BlockPools.BlockPool.RetainShared | crates/einf-control/src/block_pool.rs:217-238 | same, for the two loops of retaining |
| BlockPools.BlockPool.ReuseAndReserve | crates/einf-control/src/block_pool.rs:201-215 | same, for both together |
| KvCaches.PrefixHashInjective | crates/einf-control/src/kv_cache.rs:252-264 | chained digests of whole blocks are equal only for the same number of the same blocks |
| KvCaches.PrefixClosed | crates/einf-control/src/kv_cache.rs:125-174 | whatever digest is indexed covers one full block more than a digest that is indexed too, down to the seed |
| KvCaches.WritableExclusive | crates/einf-control/src/kv_cache.rs:125-242 | a block past what its owner sealed is in no other table |
| KvCaches.NewCacheInv | crates/einf-control/src/kv_cache.rs:55-64 | the invariant (references counted by table occurrences, free and used partition the pool, index and sealed blocks in bijection, index explained by owners) holds of a new cache |
| KvCaches.PlanReuseLongest | crates/einf-control/src/kv_cache.rs:93-123 | stopping at the first miss still finds the longest sealed proper prefix of the prompt, in whole blocks, as the blocks of its own leading chunks |
| KvCaches.SealChunkEffect | crates/einf-control/src/kv_cache.rs:137-172 | one round of sealing, published or swapped for the block already published, never fails and keeps the invariant |
| KvCaches.SealBlocksEffect | crates/einf-control/src/kv_cache.rs:125-174 | sealing any whole number of blocks after those already sealed succeeds, keeps the invariant, changes only the owner's table at the places sealed, and only grows the index |
| KvCaches.ReserveToEffect | crates/einf-control/src/kv_cache.rs:186-242 | succeeds exactly when the missing blocks are free; then the table starts with what it had (or the plan's blocks) and has exactly as many entries as the tokens need; otherwise nothing changes |
| KvCaches.ReleaseTable | crates/einf-control/src/kv_cache.rs:244-250 | forgetting a request never fails and keeps the invariant for the others |
| KvCaches.NoTablesAllFree | crates/einf-control/src/kv_cache.rs:48-64 | no block leaks: with no table left every block is free |
| KvCaches.KvCacheManager.PlanReuse | crates/einf-control/src/kv_cache.rs:93-123 | the loop with its running digest computes the plan |
| KvCaches.KvCacheManager.SealBlocks | crates/einf-control/src/kv_cache.rs:125-174 | the loop that rewrites the table in place does what the specification says, on any cache |
| KvCaches.KvCacheManager.ReserveTo | crates/einf-control/src/kv_cache.rs:186-242 | same, for reservation |
| KvCaches.KvCacheManager.Release | crates/einf-control/src/kv_cache.rs:244-250 | same, for release |
| Requests.AdvanceOk | crates/einf-control/src/request.rs:198-233 | advancing a running request within its limits succeeds and leaves it in order, running with a token left to compute or finished |
| Requests.RollbackAdvanceExact | crates/einf-control/src/request.rs:198-249 | undoing `advance` restores the request if and only if `advance` got past its first checks, or had no tokens, or the request had none |
| Requests.RollbackFailExact | crates/einf-control/src/request.rs:251-270 | undoing `fail` restores the request if and only if it was running without an error |
| Policies.SortSorts | crates/einf-control/src/scheduler.rs:130-150 | ordering the running requests keeps them all, in the policy's strict order |
| SchedulerInvariants.VictimOk | crates/einf-control/src/scheduler.rs:152-157 | the victim is unprotected and after every other unprotected running request: later arrived among those that do the same work, and prefill before decode where decoding comes first; there is one as soon as some running request is unprotected |
| SchedulerInvariants.PreemptOk | crates/einf-control/src/scheduler.rs:159-168 | preemption outside the batch never fails: head of the queue, nothing cached, table gone, everyone else untouched |
| SchedulerInvariants.FailOk | crates/einf-control/src/scheduler.rs:170-178 | failing for lack of memory never fails itself and touches no other request |
| SchedulerInvariants.TryScheduleOk | crates/einf-control/src/scheduler.rs:272-300 | the retry loop never errs: the request's item joins the batch or the request alone is failed; it is failed only when its blocks are missing and everyone else still running is in the batch; others give way only while its blocks are missing, the last in the policy's order first |
| SchedulerInvariants.RunAllOk | crates/einf-control/src/scheduler.rs:313-329 | the loop over running requests never errs and, with room left, leaves nobody running outside the batch; who gave way or failed did so for the reasons above, at a point of the loop |
| SchedulerInvariants.AdmitHeadOk | crates/einf-control/src/scheduler.rs:331-377 | the head of the queue joins running and batch within all limits, or its blocks are not free and nothing changes |
| SchedulerInvariants.AdmitAllOk | crates/einf-control/src/scheduler.rs:331-377 | the admission loop never errs, only extends the batch, and stops with room left only when blocked |
| SchedulerInvariants.SweepPreemptsLater | crates/einf-control/src/scheduler.rs:272-329 | whoever is preempted, and whoever is left out of the batch, comes after everyone in it: by arrival, or by arrival among those that do the same work where decoding comes first |
| SchedulerInvariants.ScheduleOk | crates/einf-control/src/scheduler.rs:302-392 | total: from every consistent state without a batch `schedule` succeeds and keeps the invariant; a batch is not empty, names nobody twice and obeys both length limits, and an item that stops short of its context is a whole chunk or ends a full batch; requests are preempted and failed only as above; there is no batch exactly when nothing is left running, and then the queue is empty or its head's first chunk exceeds all blocks there are |
| SchedulerResults.SubmitOk | crates/einf-control/src/scheduler.rs:57-72 | accepted exactly for a new id, a prompt and an output budget; then queued last, as given, with nothing generated or computed; otherwise nothing changes |
| SchedulerResults.CancelOk | crates/einf-control/src/scheduler.rs:96-111 | accepted exactly for a known request outside the batch that waits, runs or is cancelled; then out of both lists with its blocks given back; otherwise nothing changes |
| SchedulerResults.ValidateMeans | crates/einf-control/src/scheduler.rs:422-535 | a result is accepted exactly when it has the batch's step and answers each item once, with one token where one is to be sampled and the item's length as progress |
| SchedulerResults.AnswersAllIsBijection | crates/einf-control/src/scheduler.rs:432-458 | by counting, accepted results name exactly the requests of the batch |
| SchedulerResults.ApplyResultOk | crates/einf-control/src/scheduler.rs:416-621 | all or nothing: a rejected result leaves the state, batch included, as it was; an accepted one advances exactly the answered requests by their answers and keeps the invariant |
| SchedulerResults.FailBatchOk | crates/einf-control/src/scheduler.rs:623-668 | for the outstanding batch, fails exactly its requests and gives their blocks back; for any other changes nothing |
| Rollbacks.CommitUnwinds | crates/einf-control/src/scheduler.rs:538-621 | whatever prefix of the results was committed and wherever it stopped, running the undo log last in first out restores requests, running order and cache, even on states outside the invariant |
| Rollbacks.ValidatedAdvances | crates/einf-control/src/scheduler.rs:569-590 | the undo of `advance` is registered before it runs; accepted results pass the checks that make that exact |
| Rollbacks.ApplyResultAtomic | crates/einf-control/src/rollback.rs:8-28 | if any cache operation fails part way, the state after `apply_result` is the state before |
| Rollbacks.FailBatchUnwinds | crates/einf-control/src/scheduler.rs:623-668 | a `fail_batch` that fails restores everything but the outstanding batch, which is gone; so the state comes back whole exactly when the failure came before the batch was taken |
| SchedulerObjects.Scheduler.Submit | crates/einf-control/src/scheduler.rs:57-72 | the object does what the state function says, on any valid object graph |
| SchedulerObjects.Scheduler.Cancel | crates/einf-control/src/scheduler.rs:96-111 | same, for cancellation |
| SchedulerObjects.Scheduler.ScheduleOne | crates/einf-control/src/scheduler.rs:200-270 | same, for scheduling one request |
| SchedulerObjects.Scheduler.TrySchedule | crates/einf-control/src/scheduler.rs:272-300 | same, for the preempting retry loop |
| SchedulerObjects.Scheduler.Schedule | crates/einf-control/src/scheduler.rs:302-392 | same, for the whole of `schedule` |
| SchedulerObjects.Scheduler.ApplyResult | crates/einf-control/src/scheduler.rs:416-621 | same, for `apply_result` with its scope of undo actions, on success, error and panic |
| SchedulerObjects.Scheduler.FailBatch | crates/einf-control/src/scheduler.rs:623-668 | same, for `fail_batch` |
| SchedulerObjects.Scheduler.Unwind | crates/einf-control/src/rollback.rs:8-28 | draining the stack in reverse against the object restores what the state function restores |
| Transparency.BatchSlotsExclusive | crates/einf-control/src/scheduler.rs:245-268 | a slot written by a batch is the slot of no other position of any running request, so a batch's slots are all distinct |
| Transparency.BatchBlock | crates/einf-control/src/scheduler.rs:245-268 | a batch writes only to unsealed blocks with one reference, held by the item's own request past what it sealed |
| Transparency.PositionsHaveSlots | src/einf/executors/torch/input.py:291-296 | every cached or scheduled position has an entry in its table, so looking up its slot never goes out of range |
| Transparency.SealedFromTables | crates/einf-control/src/kv_cache.rs:125-174 | every indexed block holds the cells that its digest promises |
| Transparency.CanExecute | src/einf/executors/torch/input.py:291-296 | every consistent batch can be run: the slots written are distinct, so each can hold the cell of its token over what its item sees |
| Transparency.ScheduleKv | crates/einf-control/src/scheduler.rs:302-392 | scheduling, with reuse and preemption, moves no data, yet everyone it leaves running finds its own prefix in its slots |
| Transparency.ExecuteKv | src/einf/executors/torch/input.py:291-296 | running a batch leaves in every scheduled slot the cell of the request's own context up to there |
| Transparency.ScribbleKv | src/einf/executors/torch/input.py:291-296 | a batch that is interrupted, having written anything to its own slots, harms nothing cached |
| Transparency.ApplyKv | crates/einf-control/src/scheduler.rs:403-621 | sealing, swapping duplicates and retiring keep every slot right |
| Serving.ReachableOk | crates/einf-control/src/scheduler.rs:33-668 | over all runs of submit, cancel, schedule, execute, interrupt, apply and fail, the scheduler's invariant and its agreement with device memory hold |
| Serving.CacheIsTransparent | crates/einf-control/src/scheduler.rs:200-270 | in every reachable state, the slot of every cached position of a running request holds what a forward pass over that request's context alone would have left there |
| Serving.AttendsToOwnContext | crates/einf-control/src/scheduler.rs:200-270 | after a batch ran, what the last token of an item attends to is exactly what it would be with the request served alone |
| Serving.ServersAgree | crates/einf-control/src/scheduler.rs:200-270 | two servers with any configurations and histories compute the same from the same tokens |
| Serving.ArrivalOrder | crates/einf-control/src/policy.rs:19-27 | in every state a first-come-first-served scheduler reaches, waiting is in arrival order and everyone running arrived before everyone waiting |
| FirstComeFirstServed.VictimIsLast | crates/einf-control/src/scheduler.rs:152-168 | first come first served preempts the end of the running list, so both lists together keep their order |
| FirstComeFirstServed.ScheduleFifo | crates/einf-control/src/scheduler.rs:302-392 | `schedule` keeps the arrival order |
| FirstComeFirstServed.ApplyFifo | crates/einf-control/src/scheduler.rs:416-621 | so does `apply_result` |
| FirstComeFirstServed.FailBatchFifo | crates/einf-control/src/scheduler.rs:623-668 | so does `fail_batch` |
| SampleTiming.SamplesInTime | crates/einf-control/src/scheduler.rs:200-270 | an item of a batch samples exactly at the end of its context if and only if it does not decode before the last token; that is, unless the cached tokens of its request cover the prompt and leave more than one to compute |
| SampleTiming.RecomputeSamplesEarly | crates/einf-control/src/request.rs:171-173 | a family of requests for which this fails: preempted with two or more tokens generated, recomputed up to the prompt, then taken to be decoding and sampled in the middle of the context (a state with such an item is reachable, next row) |
| EarlySampling.EarlySampleReachable | crates/einf-control/src/scheduler.rs:33-668 | that request arises: a scheduler of two blocks of five tokens and two requests that compete for them reach, by submissions, rounds, answered batches and one that fails, a state whose outstanding item samples before the end of its context |
| EarlySampling.EarlySampleBreaksStream | crates/einf-control/src/scheduler.rs:33-668 | and it matters: on that run, with every result picked greedily by some model, the request is then answered something else than the plain greedy stream of its prompt |
| SampleTiming.NextInStep | crates/einf-control/src/scheduler.rs:159-168 | in any step a request falls out of step if and only if computed cells are taken back from it after its second generated token |
| SampleTiming.SamplesAtEndExactly | crates/einf-control/src/scheduler.rs:200-270 | over any run, an item samples before the end of its context if and only if its request's cached tokens cover the prompt and it has been out of step ever since some step took its cells back |
| IdleServer.RoundLighter | src/einf/lib.py:10-23 | under either policy a round leaves less to do: fewer tokens due as soon as somebody decodes and decoding comes first, since the first who decodes is served or fails; and otherwise the first request, in arrival order, whose remaining work changes has less left |
| IdleServer.RunOnceProgress | src/einf/lib.py:10-23 | a round with a batch, answered or raised, succeeds, adds no request and lowers a measure fixed in advance, under either policy |
| IdleServer.LLMServer.RunOnce | src/einf/lib.py:10-23 | on the scheduler object: progress, or nothing running and the queue empty or its head too large for the cache |
| IdleServer.LLMServer.RunUntilIdle | src/einf/lib.py:25-27 | terminates under either policy, for every executor that answers what it is asked or raises, with nothing running and the queue empty or its head too large for the cache |
| GreedyServing.SampledToken | crates/einf-control/src/scheduler.rs:200-270 | what a greedy model picks at the last cell of any executed item is the next token after that request's own context up to there |
| GreedyServing.EarlyRepeats | crates/einf-control/src/scheduler.rs:200-270 | an item that decodes too early samples once more a token that the request has been answered already, the one after its own |
| GreedyServing.AnswerExactly | crates/einf-control/src/scheduler.rs:538-621 | a greedy answer continues the plain greedy stream if and only if its item was timely or the token it repeats is the next one as well |
| GreedyServing.ServedExactly | crates/einf-control/src/scheduler.rs:200-621 | end to end, over any run with greedily picked results: what a request has been answered is the plain greedy stream of its own prompt if and only if every answered item of it was timely or repeated the token due next |
| GreedyServing.ServesGreedily | crates/einf-control/src/scheduler.rs:200-621 | so a request whose answered items were all timely is answered the plain greedy stream of its own prompt, however often it is preempted and whoever shares blocks and batches with it |
| GreedyDecoding.CutOfLonger | src/einf/executors/torch/spec_runner.py:403-409 | stopping inside a step at `eos` and cutting to length is cutting the plain greedy stream |
| GreedyDecoding.AppendUntilEos | src/einf/executors/torch/spec_runner.py:403-408 | the loop appends the committed tokens up to and including the first `eos` |
| DraftVerification.Accepted | src/einf/executors/torch/speculative.py:167-175 | the length of the scan is the first disagreement |
| DraftVerification.CumProdIsScan | src/einf/executors/torch/speculative.py:70-74 | the cumulative product of the match flags sums to the length of the sequential scan |
| DraftVerification.AcceptRejectGreedyReference | src/einf/executors/torch/speculative.py:158-177 | the loop writes the accepted drafts, one more pick and padding |
| DraftVerification.GreedyFormsAgree | src/einf/executors/torch/speculative.py:49-86 | the masked form returns the same row and length as the loop |
| DraftVerification.GreedyKeepsStream | src/einf/executors/torch/speculative.py:49-86 | whatever was drafted, what is kept is the next tokens of plain greedy decoding |
| DraftVerification.SlotIsExact | src/einf/executors/torch/speculative.py:89-154 | for any draft and target distributions a slot commits each token with the target's probability; the fallback for a vanishing residual has no weight |
| DraftVerification.CommittedExactly | src/einf/executors/torch/speculative.py:180-224 | the same for the reference, which corrects by a multinomial draw over the residual: acceptance and correction together give the target's probability |
| DraftVerification.ChanceIsMeasure | src/einf/executors/torch/speculative.py:129-130 | of the draws in [0, 1), the accepted ones have exactly the acceptance probability as their measure, for either test |
| DraftVerification.ProgramsAreExact | src/einf/executors/torch/speculative.py:89-224 | both programs, with their own tests: whatever the measures of the accepted draws are, a slot commits each token with the target's probability |
| DraftVerification.SamplingIsExact | src/einf/executors/torch/speculative.py:89-154 | step after step, each verifying new drafts, whole sequences come out with exactly the target's probability, for any draft model and any number of drafts |
| DraftVerification.TestsAgree | src/einf/executors/torch/speculative.py:129-130 | the two acceptance tests differ exactly when the draw times the draft probability equals the target probability |
| DraftVerification.StopsAtFirstReject | src/einf/executors/torch/speculative.py:132-133 | the cumulative product stops at the first rejected slot |
| ChainSpeculation.CapacityIs | src/einf/executors/torch/spec_runner.py:183-191 | the test on page counts says that the tokens fit the cache |
| ChainSpeculation.WriteExtends | src/einf/executors/torch/spec_runner.py:183-261 | a pass over the tokens that follow what is cached extends it and touches nothing else |
| ChainSpeculation.Track.Forward | src/einf/executors/torch/spec_runner.py:183-261 | raises exactly when the tokens do not fit; otherwise writes their cells and lets the model pick after each |
| GreedyDecoding.OnlyNewIsGreedy | src/einf/executors/torch/spec_runner.py:272-297 | what an engine that was used before returns is plain greedy decoding, for every model, if and only if its caches hold nothing (or nothing is asked for) |
| ChainSpeculation.SpeculativeEngine.Prefill | src/einf/executors/torch/spec_runner.py:272-297 | on new and used engines: raises exactly for an empty prompt or one that does not fit the smaller cache behind what is live; otherwise the first token follows everything in the cache, and both caches follow the prompt-length beginning of it |
| ChainSpeculation.SpeculativeEngine.Propose | src/einf/executors/torch/spec_runner.py:327-343 | proposes the draft model's own greedy continuation and caches all of it |
| ChainSpeculation.SpeculativeEngine.Verify | src/einf/executors/torch/spec_runner.py:345-349 | one pass scores every proposal as the target would for that context alone |
| ChainSpeculation.SpeculativeEngine.Step | src/einf/executors/torch/spec_runner.py:319-386 | raises exactly when the proposals do not fit; otherwise commits the target's plain greedy tokens up to and including the first that the draft model's own continuation does not have, or one more than all of it, and both tracks hold exactly the committed context but its pending last token |
| ChainSpeculation.SpeculativeEngine.Generate | src/einf/executors/torch/spec_runner.py:388-409 | on a new engine returns the plain greedy stream of the target, cut at the length or at the first `eos` after token 0, for every draft model; on a used one the stream resumed from what its caches hold; and leaves an engine that can be used again |
| TreeSpecs.MaskBits | src/einf/executors/torch/spec_tree.py:74-88 | the bits of a visibility word are the pending token, the ancestors and the node itself |
| TreeSpecs.FitsUpTo62 | src/einf/executors/torch/spec_tree.py:168-171 | all words fit a signed 64-bit integer if and only if the tree has at most 62 nodes, although a budget of 63 is accepted |
| TreeSpecs.TreeSpec.Append | src/einf/executors/torch/spec_tree.py:74-88 | appending keeps depths, parents and visibility words consistent |
| TreeSpecs.TreeSpec.Ancestors | src/einf/executors/torch/spec_tree.py:96-105 | the walk to the root, turned around |
| TreeSpecs.TreeSpec.BuildTreeMaskReference | src/einf/executors/torch/spec_tree.py:124-150 | the oracle: each row sees history, the pending token, the ancestors and itself |
| TreeSpecs.TreeSpec.BuildTreeMask | src/einf/executors/torch/spec_tree.py:153-176 | the bit form equals the oracle row by row for every tree of at most 62 nodes, and cannot be built for a larger one |
| TreeSpecs.TreeSpec.BuildLevelMask | src/einf/executors/torch/spec_tree.py:225-245 | a row of the oracle's mask for each node of the level |
| TreeSpecs.LevelRowIsOracleRow | src/einf/executors/torch/spec_tree.py:225-245 | a level's row is the finished tree's oracle row restricted to the nodes there were |
| TreeWalks.FindGreedyPath | src/einf/executors/torch/spec_tree.py:248-288 | the loop follows matching children as long as there are any: the path spells what is committed, each token is what the node before picks, and no child of the last node holds the last one |
| TreeWalks.TreeVerifySampling | src/einf/executors/torch/spec_tree.py:179-210 | the same of the sampling loop, over draws from the target |
| TreeWalks.PathIsLongest | src/einf/executors/torch/spec_tree.py:248-288 | where siblings differ, every path that spells a beginning of the committed tokens is a beginning of that path |
| TreeWalks.TreeKeepsStream | src/einf/executors/torch/spec_tree.py:248-288 | for every tree and every draft, the committed tokens are the next tokens of plain greedy decoding, one more than the path is long |
| TreeWalks.TreeSamplingIsExact | src/einf/executors/torch/spec_tree.py:179-210 | step after step, each with a new tree for its context, sequences come out with exactly the target's probability, whatever trees are drafted |
| TreeWalks.PathIncreases | src/einf/executors/torch/spec_tree.py:15-22 | node indices increase along any path, and none is smaller than its place on it |
| TreeWalks.CopyAscending | src/einf/executors/torch/spec_tree.py:291-315 | copying slot by slot in place, ascending, equals the simultaneous copy |
| TreeWalks.GatherCommit | src/einf/executors/torch/spec_tree.py:291-315 | the indexed assignment reads everything before it writes |
| TreeExpansion.TopKIsBest | src/einf/executors/torch/spec_tree.py:521-531 | the children proposed for a node are the best tokens of its row: as many as the branch factor or the vocabulary allows, different, best first, and none left out is better |
| TreeExpansion.SortByConfSorts | src/einf/executors/torch/spec_tree.py:533-534 | ranking a level keeps its candidates and puts them in falling order |
| TreeExpansion.Drafter.AddLevel | src/einf/executors/torch/spec_tree.py:536-554 | the loop appends the candidates in their order, without repeating a token below a parent; the level is counted twice against the budget, so it takes half of what is left, rounded up, or all there are |
| TreeExpansion.Drafter.GrowSize | src/einf/executors/torch/spec_tree.py:490-554 | the number of nodes depends only on budget, branch factor, vocabulary and depth, by a recurrence on the sizes of the levels |
| TreeExpansion.Drafter.TreeSizeWithin | src/einf/executors/torch/spec_tree.py:490-554 | that number is at most the budget, and at least the smaller of budget and depth |
| TreeExpansion.TenLevels | src/einf/executors/torch/spec_tree.py:490-554 | with a budget of 63 and two children, trees of at most nine levels fit and deeper ones do not |
| TreeExpansion.Drafter.Expand | src/einf/executors/torch/spec_tree.py:448-563 | the loop over levels builds exactly the specified tree, siblings with different tokens and of exactly that size, and fails only if it has more than 62 nodes |
| TreeConfidence.ConfidenceIsPathSum | src/einf/executors/torch/spec_tree.py:521-551 | in every drafted tree a node's confidence is the sum of the draft's log probabilities along its path |
| TreeConfidence.RankedLevelIsBest | src/einf/executors/torch/spec_tree.py:533-551 | a ranked level takes as many candidates as fit, and none that is left out has a larger sum than one that is taken |
| TreeSpeculation.MovesCollisionFree | src/einf/executors/torch/spec_tree.py:618-636 | the moves of a path only go down, in order, and leave slots up to the pending token's alone |
| TreeSpeculation.SeenIsPath | src/einf/executors/torch/spec_tree.py:153-176 | what a node's mask row shows of the cache is exactly the cells of its own path, at the positions of its depth |
| TreeSpeculation.VerifyTree | src/einf/executors/torch/spec_tree.py:587-610 | one masked pass, in which every row reads whatever its whole mask row shows, scores every node as the target would for that node's path alone |
| TreeSpeculation.PassCachesTree | src/einf/executors/torch/spec_tree.py:587-610 | whatever cache a pass may leave, with every new cell computed from all cells its mask row shows, holds at each node's slot the cell of its path: the mask shows nothing that is written later |
| TreeSpeculation.GatheredFollows | src/einf/executors/torch/spec_tree.py:618-636 | after the gather, slot `p` holds the cell of the committed context up to `p` |
| TreeSpeculation.TreeSpeculativeEngine.Step | src/einf/executors/torch/spec_tree.py:577-648 | succeeds if and only if both caches have room and the size that budget, branch factor, vocabulary and depth give is at most 62; then commits tokens of the target's plain greedy stream for every draft model and tree, as many as the longest path of the drafted tree that agrees allows and one more, with the target's cache right up to the pending token |
| TreeSpeculation.TreeSpeculativeEngine.Generate | src/einf/executors/torch/spec_runner.py:388-409 | the same in tree mode: the cut plain stream, on new and used engines, and always a result when the smaller cache has room and the tree at most 62 nodes |
| CopyRing.IssueNext | src/einf/executors/torch/dsl/flash_attention.py:392-414 | with fewer tiles ahead than stages, the next copy goes to a stage that nobody is using |
| CopyRing.WaitAndSync | src/einf/executors/torch/dsl/flash_attention.py:380-387 | waiting while leaving only later groups in flight makes the tile to be read visible to the whole block |
| CopyRing.KvLoop | src/einf/executors/torch/dsl/flash_attention.py:343-451 | the operations that the kernel issues are race free for every number of stages and tiles, and copy tiles 0, 1, 2, ... to registers |
| OnlineSoftmax.VisibleTilesExact | src/einf/executors/torch/dsl/flash_attention.py:121-133 | a key past the scanned tiles is later than every query of the tile, and the last scanned tile holds a key that some query may see |
| OnlineSoftmax.ScanInRange | src/einf/executors/torch/dsl/flash_attention.py:121-133 | with whole tiles the scan stays within the keys and covers each row's own position |
| OnlineSoftmax.RescaleSums | src/einf/executors/torch/dsl/flash_attention.py:434-439 | raising the maximum scales numerator and denominator by the same factor |
| OnlineSoftmax.WeightsAreSoftmax | src/einf/executors/torch/dsl/flash_attention.py:420-436 | relative to any actual maximum, masked scores weigh nothing and the others as in softmax, up to one common factor |
| OnlineSoftmax.OnlineSoftmaxUpdate | src/einf/executors/torch/dsl/online_softmax_layout.py:108-127 | the loops return the new maximum, the rescaled denominator and the rescaling factor |
| OnlineSoftmax.StepRow | src/einf/executors/torch/dsl/flash_attention.py:420-449 | a step keeps maximum, denominator and numerators standing for the keys scanned so far |
| OnlineSoftmax.AttendRow | src/einf/executors/torch/dsl/flash_attention.py:377-455 | the tile loop returns causal softmax attention over all keys, for every length and tile size that the launch accepts |
| MoeAlignment.StableOrderSorts | src/einf/executors/torch/triton_moe.py:76-77 | the order holds every pair, by expert and then by index |
| MoeAlignment.BinCount | src/einf/executors/torch/triton_moe.py:65-65 | counts per expert |
| MoeAlignment.AlignBlockSize | src/einf/executors/torch/triton_moe.py:44-95 | counts, cumulative sums and one scatter give the padded runs of the experts and an expert for every block |
| MoeAlignment.RunsVisitAll | src/einf/executors/torch/triton_moe.py:76-82 | every pair is in exactly one row, and rows visit pairs in the stable order |
| MoeAlignment.BlocksAreSingleExpert | src/einf/executors/torch/triton_moe.py:84-86 | every block holds sentinels and pairs of the one expert recorded for it |
| MoeAlignment.PaddedLengthBound | src/einf/executors/torch/triton_moe.py:354-357 | the padded rows fit in ceil(pairs / block) + experts blocks |
| MoeExperts.TileDot | src/einf/executors/torch/triton_moe.py:206-219 | the masked reduction in tiles is the dot product |
| MoeExperts.Program | src/einf/executors/torch/triton_moe.py:179-225 | one program writes exactly the entries of its rows that hold pairs and its columns, and nothing else |
| MoeExperts.GroupedGemm | src/einf/executors/torch/triton_moe.py:179-225 | the grid writes every row that holds a pair, whatever is in sentinel rows |
| MoeExperts.Combine | src/einf/executors/torch/triton_moe.py:232-252 | tokens get the sum of their rows in row order; sentinels and spare rows add nothing |
| MoeExperts.ExpertMlpReference | src/einf/executors/torch/triton_moe.py:260-314 | the loop over experts, each gathering its rows, computing both products and the activation and adding weighted rows to their tokens, gives each token the sum over its pairs |
| MoeExperts.MoeExpertMlp | src/einf/executors/torch/triton_moe.py:324-417 | align, grouped product, activation, weighted product and combine give exactly what the reference gives |
| MoeExperts.FusedAndReference | src/einf/executors/torch/triton_moe.py:260-417 | fused path and reference return the same matrix for every layer, routing and block size |
| MoeOutput.OutputIs | src/einf/executors/torch/triton_moe.py:290-314 | what both return, entry by entry: the routed sum over a token's slots of products of `silu` of a row of the first half, the matching row of the second half and an entry of the second operand |
| MoeOutput.OutputScalesWithUp | src/einf/executors/torch/triton_moe.py:302-302 | multiplying the second half of the rows of every first operand multiplies the output |
| MoeOutput.OutputScalesWithSilu | src/einf/executors/torch/triton_moe.py:302-302 | multiplying `silu` multiplies the output; without it the output is zero |
| W4A16.PermInverse | src/einf/executors/torch/dsl/w4a16_pack.py:41-60 | the 1024-entry permutation is a bijection, with an explicit inverse |
| W4A16.MarlinWeightPerm | src/einf/executors/torch/dsl/w4a16_pack.py:41-60 | the appending loops build exactly that permutation |
| W4A16.MarlinWeightInvPerm | src/einf/executors/torch/dsl/w4a16_pack.py:64-67 | scattering indices builds exactly its inverse |
| W4A16.WordHolds | src/einf/executors/torch/dsl/w4a16_pack.py:181-206 | each of the eight nibbles of a signed 32-bit word is read back, the top one despite the sign |
| W4A16.PackMarlin | src/einf/executors/torch/dsl/w4a16_pack.py:167-183 | tile, permute and or nibbles into words |
| W4A16.UnpackMarlin | src/einf/executors/torch/dsl/w4a16_pack.py:200-213 | take words apart, permute back, untile |
| W4A16.PackRoundTrip | src/einf/executors/torch/dsl/w4a16_pack.py:145-216 | unpacking undoes packing for every matrix of 4-bit integers of valid dimensions |
| W4A16.FragmentLayout | src/einf/executors/torch/dsl/w4a16_pack.py:41-60 | where each weight goes: of every 16 by 64 block, nibble `i` of word `4 * thread + tile` holds the entry of that tile that the thread multiplies, rows 2t, 2t + 1, 2t + 8 and 2t + 9 of its column and of the column eight further on |
| W4A16.RoundClose | src/einf/executors/torch/dsl/w4a16_pack.py:164-164 | rounding is to the nearest integer, on a tie to the even one |
| W4A16.QuantizationError | src/einf/executors/torch/dsl/w4a16_pack.py:120-125 | with a covering scale the error is at most one step, and at most half a step if and only if the weight is at most 7.5 steps (the clamp at 15) |
| W4A16.StepErrorExact | src/einf/executors/torch/dsl/w4a16_pack.py:164-165 | for any positive scale, the error is at most one step if and only if the weight lies between -9 and 8 steps |
| W4A16.ComputeScales | src/einf/executors/torch/dsl/w4a16_pack.py:120-125 | every scale is an eighth of the largest magnitude of its column in its group, or of the least allowed, and covers that column |
| W4A16.ColumnScale | src/einf/executors/torch/dsl/w4a16_pack.py:120-125 | an eighth of the largest magnitude, or of the least allowed |
| W4A16.FakeQuant | src/einf/executors/torch/dsl/w4a16_pack.py:219-229 | pack then unpack accepts exactly the valid shapes, with scales of matching or broadcastable shape if supplied; every weight comes back rounded and clamped in its scale's steps, and with the default scales within one step |
| ModelInputs.FromPlan | src/einf/executors/torch/input.py:59-101 | the appending loops raise exactly when a position lies beyond its request's table; otherwise at each request's query start stand its tokens with their positions counted from its start and the slots of those positions in its table, and its context length and padded table are its own |
| ModelInputs.SameRefusals | src/einf/executors/torch/input.py:158-172 | a plan is refused up front exactly when building or laying out the pages of its fresh input would refuse it |
| ModelInputs.PagesOfInput | src/einf/executors/torch/flashinfer_attn.py:20-70 | padding the tables does not show in the page layout |
| ModelInputs.SlotIsInPages | src/einf/executors/torch/input.py:291-317 | where a token is written is where the page layout looks for its position: row start plus page, times the block length, plus offset |
| ModelInputs.Staging.Fill | src/einf/executors/torch/input.py:258-319 | overwriting buffers with any content leaves at their front an input and a page layout of which all that holds: tokens, positions, slots, starts, contexts, tables, pages and how full the last page is |
| ModelInputs.ModelInputPool.Build | src/einf/executors/torch/input.py:152-213 | for any history, a build returns the fresh input and the page layout of that input, both as described, or refuses without a change |
| ModelInputs.SmallestBucket | src/einf/executors/torch/decode_graph.py:37-40 | the bucket is the smallest that fits |
| ModelInputs.PackableMeans | src/einf/executors/torch/decode_graph.py:211-236 | what packing accepts of a request is what building accepts, with a table that fits and without the dummy block |
| ModelInputs.DummyOnlyInPads | src/einf/executors/torch/decode_graph.py:232-250 | rows within the batch never read or write the dummy block; rows beyond it touch nothing else |
| ModelInputs.DecodeCudaGraph.FillFromPlan | src/einf/executors/torch/decode_graph.py:193-253 | accepts exactly packable plans; then every row of the bucket holds its request's token, position, slot, context, table and pages, and the rows beyond the batch those of pads |
| ModelInputs.DecodeCudaGraph.PackPlan | src/einf/executors/torch/decode_graph.py:111-253 | for any history, an accepted plan lands in the smallest bucket as the fresh input of the plan filled up with pads, with the page layout of that input, both as described |

## Left out

- Numbers: `u32`, `u64` and `usize` counters, lengths and ids are unbounded naturals; token ids are integers. Reals stand for floating point, so rounding, BF16 storage and overflow are not modelled.
- Digests: SHA-256 is taken to be injective and never equal to the seed prefix.
- Panics, `expect` and indexing out of range are one outcome, `Panicked`, after which nothing is undone; the texts of errors are an enumeration, and the message for a request that fails for lack of memory is a constant.
- Model arithmetic: tokenisation, embedding, norms, RoPE, projections and the sampler of the serving path are one abstract function of what a token attends to.
- Getters, statistics, input validation of `sampler.py` and `sample.rs`, `choose_num_splits`: one-branch facts.
- ChainSpeculation.SpeculativeEngine.Generate: staging fences and graph replay of single tokens are left out, and so is a call after one that raised, which may leave the two tracks at different lengths.
- TreeSpeculation.TreeSpeculativeEngine.Step: claims cache contents for the target only, since the deepest level is never forwarded on the draft; the draft's log probabilities are an arbitrary function of the round, the tree so far and the parent, and among equal ones the lowest token is taken first.
- DraftVerification.SamplingIsExact: distributions are finite sequences of reals; generators and their streams are not modelled, and rows of a batch, which do not interact, are modelled one at a time.
- `pack_mask_flashinfer`, `chain_verify_mask` and `permute_scales_marlin`: one bit packing, one constant mask and one fixed reordering, easy beside the masks and permutations proved here.
- CopyRing.KvLoop: warps are not modelled one by one; a barrier makes landed data visible and finished reads final, as the hardware documents it.
- OnlineSoftmax.AttendRow: one row at a time; fragments, shuffles between the threads of a row, swizzled shared memory and the epilogue store are left out. The masking value -1e30 is modelled as minus infinity.
- MoeExperts.MoeExpertMlp: `silu` is an arbitrary function of reals; rounding between stages is left out, as in the reference without `quantize_intermediates`.
- MoeExperts.GroupedGemm: programs of the grid write disjoint entries and are run one after the other.
- W4A16.FakeQuant: a supplied scale of zero, which divides by zero, and the cast of scales to the weights' dtype are left out; a one-dimensional list of scales is given as one row.
- ModelInputs.ModelInputPool.Build: returned tensors are copies; that they are views which a later build may overwrite, pinned memory and the fence on earlier copies are left out. A negative block id cannot arise, since ids are naturals.
- ModelInputs.DecodeCudaGraph.PackPlan: capture, replay and the path from an already built input are left out.
- PyO3 bindings, checkpoint loading, benchmarks, CUDA and C++ operators, FlashInfer, Marlin and Triton internals: foreign code or no state of their own.
