# Whetstone: verified models of its protocols

Whetstone drives optimizer runs over a content-addressed store with write-once bindings. This project models
the protocols that keep those runs consistent and proves what they promise. To verify it:

    dafny verify dfyconfig.toml

The files, one module each:

* **Evaluation claims** — `ClaimLog` (the append-only claim log and its checks), `ClaimMachine` (every
  interleaving of any number of resolvers, each with a main and a heartbeat thread, with crashes and a moving
  clock), `ClaimLeases` (how long the events of its runs hold the lease), `EvalClaims` (the service's methods over a
  shared store that other resolvers change between any two accesses), `RejectionRace` (a run in which a rejection
  overtakes an attestation), `AttestationRace` (which states can still lose an attested result, and which cannot).
* **Platform stages** — `StageFanOut` (fan-out of a deferral into row stages and a barrier), `StageMember` (each
  stage as the list of store writes it makes and the outcome it reports), `StageRun` (runs of a GEPA member with
  replayed fan-ins), `StagePlainRun` (runs of a member of the other optimizers), `FallenHead` (runs in which a
  replayed fan-in takes such a member's head back), `StageRetry` (crashes between any two writes of a deferring
  step, and retries),
  `StageExecutor` (the executors as methods that write one binding at a time and may die before any write).
* **Prompt cache** — `PromptCache` (files and accounting invariant), `CacheMachine` (calls on any number of keys,
  interleaved, with a crash before any file operation and outside damage), `PromptResultCache` (the methods).
* **Step chain** — `StepChain` (interleaved harnesses over write-once step bindings, budgets, terminal results),
  `StepHarness` (the harness's methods), `IndexKeys` (the binding keys).
* **Evaluation** — `NestedMean` (the two-level mean), `RowAssembly` (reassembling rows from slices), `RowDerivation`
  (the validator of published evidence), `SeedPlan` (task trials and their reconstruction).
* **Algorithms** — `JsonSize` (the byte counter against a JSON printer, escapes per section 7 of RFC 8259 and byte
  widths per section 3 of RFC 3629), `Template` (placeholder scanner against format rendering), `LeaseText` (lossy
  failure text with an escaped original beside it), `Pareto`, `ProviderDriver` (retries, backoff, deadline).

Where an operation changes state it is a method, proved equal to a specification function or to a list of writes,
and the promises are lemmas about that function over all inputs or all runs. A store reference is a content hash
and is modelled by the record it names. Timestamps, scores and seconds are reals.

## Where the code does not do what is said of it

Each of these is proved, with the exact condition.

* A rejection is checked and then bound (`eval_claims.py:522-524`), so an attested result need not become the bound
  one (`RejectionRace.RejectionOvertakesAttestation` gives a run). While the key is unbound, a rejection can still
  win exactly when some thread is already past its check with a rejection in hand
  (`AttestationRace.RejectionWinsIffPending`); in every other state the attested result is the only one that can be
  bound (`AttestationRace.AttestedPrevailsIff`).
* A retry of a deferring step reports what the uncrashed step reports exactly when it loads the parked head or a
  bound placeholder still has its persisted intents (`StageRetry.RetryIffRecoverable`). The resume branch evicts
  the intents but not the placeholder (`step_executor.py:603-619`), so a retry leaves the store of the uncrashed
  step exactly when it does not start from the work input with the placeholder bound beside the parked head, which
  is the cut after the fifth of seven writes (`StageRetry.OneCrashSameStoreIff`). The member is stuck on its next
  step exactly when the placeholder is left (`StageRetry.BlockedIffPlaceholderLeft`).
* The comment at `eval_fanin.py:567-570` says that step indices alone order the fan-ins of optimizers other than
  GEPA, which defer once in a step, and the code makes no comparison there. In runs that do defer once in a step,
  a fan-in still lowers the stage of the head exactly when the head has moved past the state of that fan-in's own
  merge (`StagePlainRun.StageFallsIffMovedPast`), and every episode with rows can be brought to that
  (`FallenHead.EveryEpisodeCanFallBack`). In all runs the head goes back exactly when its results properly extend
  those of the merge (`StagePlainRun.ReplayMovesHead`); it loses no result
  (`StagePlainRun.ResultsAreForever`) and catches up step by step (`StagePlainRun.HeadCatchesUp`). Where a step that
  has deferred runs again, stages do not order the heads at all: `FallenHead.StagesDoNotOrderRepeats` goes back in
  results and up in stage.
* Decoding a stored failure can raise: exactly when an envelope entry is no ASCII escape text, or stands for an
  empty original that coerces to the stored text (`LeaseText.DecodedEncodesBack`,
  `LeaseText.StuffedEnvelopeRaises`). An encoded failure decodes to itself exactly when its own details lack the
  reserved key (`LeaseText.FailureRoundTrip`).

## Model

| member | source | states |
|---|---|---|
| ClaimLog.ScanNeverFails | src/whetstone/coordination/eval_claims.py:179-210 | on a well-formed log none of the checks made while reading it can fire |
| ClaimLog.AttestationEndsLog | src/whetstone/coordination/eval_claims.py:183-210 | nothing follows an attestation, so there is at most one |
| ClaimLog.GenerationsAdvance | src/whetstone/coordination/eval_claims.py:224-262 | generations never go back; within one the owner is fixed and expiry never goes back; a later one is issued after the earlier lease expired |
| ClaimLog.LeasesExclude | src/whetstone/coordination/eval_claims.py:407-443 | at any instant at most one generation holds an issued, unexpired lease |
| ClaimLog.AppendKeepsLog | src/whetstone/coordination/eval_claims.py:214-283 | an admitted event keeps the log well formed |
| ClaimMachine.Agreement | src/whetstone/coordination/eval_claims.py:122-137 | in every interleaving, all calls that return agree on the resolution bound at the key |
| ClaimMachine.AgreementOverTime | src/whetstone/coordination/eval_claims.py:483-499 | a result returned early in a run is the only one the rest of the run can return |
| ClaimMachine.ReturnedResultsAreAttested | src/whetstone/eval/evidence_validation.py:595-625 | a returned completed or failed result is that of the single attestation, and that attestation ends the log |
| ClaimMachine.NoDefectIsReachable | src/whetstone/coordination/eval_claims.py:167-283 | no thread of any run meets an integrity error, whatever crashes and takeovers happened |
| ClaimMachine.LogIsWellFormed | src/whetstone/coordination/eval_claims.py:360-443 | in every reachable state the log starts at generation and heartbeat 0, renewals add one heartbeat, takeovers change owner, add one generation and respect the prior expiry |
| ClaimMachine.RunsOnlyGrow | src/whetstone/coordination/eval_claims.py:262-283 | what a run wrote is never taken back by a longer run |
| ClaimMachine.FencedOwnersNeverAttest | src/whetstone/coordination/eval_claims.py:285-346 | once a generation is seen, only its own owner or a later generation can attest |
| ClaimLeases.LeaseRunsFromReading | src/whetstone/coordination/eval_claims.py:248-283 | every event of the log, renewals and attestations included, holds the lease for exactly one lease from a clock reading made while the log ended right before it |
| ClaimLeases.RenewalsExtend | src/whetstone/coordination/eval_claims.py:255 | an event bound behind some state of the run holds the lease for at least one whole lease from that state on |
| AttestationRace.RejectionWinsIffPending | src/whetstone/coordination/eval_claims.py:507-524 | from a state with an attestation and an unbound key, some continuation binds a rejection exactly when a thread is already past its lease check with a rejection in hand |
| AttestationRace.AttestedPrevailsIff | src/whetstone/coordination/eval_claims.py:507-524 | the attested result is the only one any continuation can bind exactly when it is bound already, or the key is unbound and no rejection is under way |
| AttestationRace.RejecterIsForeign | src/whetstone/coordination/eval_claims.py:392-405 | a rejection under way behind an attestation is always that of another owner's main thread |
| AttestationRace.AttestedCanStillWin | src/whetstone/coordination/eval_claims.py:483-491 | while the key is unbound, some continuation binds the attested result, also from the states that can lose it |
| RejectionRace.RejectionOvertakesAttestation | src/whetstone/coordination/eval_claims.py:522-524 | there is a run that attests a completed result and binds a rejection |
| EvalClaimsService.EvalClaims.LatestClaim | src/whetstone/coordination/eval_claims.py:167-212 | reading event by event while others append never breaks and ends at the last event of the log |
| EvalClaimsService.EvalClaims.AppendClaimEvent | src/whetstone/coordination/eval_claims.py:214-283 | the winner of the ordinal is read back, own or foreign; an own event is the one asked for and holds the lease for one whole lease from a clock reading of this call; the lease is lost only to another owner's unexpired claim |
| EvalClaimsService.EvalClaims.RenewClaim | src/whetstone/coordination/eval_claims.py:360-390 | a renewal that succeeds left a new event of this owner's generation, or found that generation's attestation; an own event extends the lease to at least one lease after the call began; it fails only on a lost generation |
| EvalClaimsService.EvalClaims.PublishResultAttestation | src/whetstone/coordination/eval_claims.py:285-346 | on success the log holds the attestation of this very result under this generation; it appends nothing else, each event with a whole lease, and fails only on a lost generation or another attested result |
| EvalClaimsService.EvalClaims.ClaimIntent | src/whetstone/coordination/eval_claims.py:407-443 | a claim names a generation of this owner that the log held during the call; no claim means that the key is bound or a result attested; it gives up only while another owner's claim is unfinished |
| EvalClaimsService.EvalClaims.Bind | src/whetstone/coordination/eval_claims.py:122-137 | whatever it returns is the resolution bound at the key |
| EvalClaimsService.EvalClaims.BindIfOwned | src/whetstone/coordination/eval_claims.py:507-524 | a returned resolution is the bound one, and the generation was held during the call; an executed result is attested first, under this generation, and is the returned one unless a rejection was bound; a lease is lost only to another generation or another attested result |
| EvalClaimsService.EvalClaims.EvaluateWithHeartbeat | src/whetstone/coordination/eval_claims.py:445-481 | a result is returned only when it is bound and the claim was renewed first, whatever the heartbeat thread reported, so the heartbeat error never follows a result; it binds only what was produced |
| EvalClaimsService.EvalClaims.ResolveClaimed | src/whetstone/coordination/eval_claims.py:483-499 | resolving under interference returns only the bound resolution, binds only what it produced or found attested, never breaks, and loses a lease only after it held it |
| EvalClaimsService.EvalClaims.FindOrClaim | src/whetstone/coordination/eval_service.py:233-253 | either returns the bound resolution, or owns a generation that the log held during the call |
| EvalClaimsService.EvalClaims.AssembleAndBindOutcomes | src/whetstone/coordination/eval_service.py:298-372 | finished rows resolve to their verdict: an executed verdict is attested and is the returned resolution unless a rejection was bound; it raises only without a verdict |
| EvalClaimsService.EvalClaims.AssembleWithHeartbeat | src/whetstone/coordination/eval_service.py:255-296 | a result is returned only when it is bound and the claim was renewed first; it raises only without a verdict |
| EvalClaimsService.EvalClaims.ResolveClaimedWithRowOutcomes | src/whetstone/coordination/eval_service.py:233-296 | resolving from rows under interference returns only the bound resolution and binds only their verdict or what it found attested |
| EvalClaimsService.VerdictByKind | src/whetstone/coordination/eval_service.py:310-366 | with failures that carry their evidence: the first rejection if some row was rejected, else the first failure if some row failed, else what is assembled, provided some row has evidence |
| StageFanOut.ExpandEvalRows | src/whetstone/platform/step_executor.py:428-453 | the counting loop numbers every (intent, task, seed) row by its position |
| StageFanOut.EmitDeferredSuccessors | src/whetstone/platform/step_executor.py:456-502 | one stage per row and the barrier behind them |
| StageFanOut.FanOutAgrees | src/whetstone/platform/step_executor.py:505-547 | rows fill stages origin+1 to origin+n, each where its own check expects it; the barrier is the stage of the parked state and names the first intent; the row-count sum, the expansion and the fan-in agree |
| StageFanOut.EveryCellHasItsRow | src/whetstone/platform/step_executor.py:436-452 | each intent, task of its declared subset (or of the engine) and seed has its row at offset + task * seeds + seed, and offsets grow by tasks * seeds |
| StageRun.UnparkedStep | src/whetstone/platform/step_executor.py:603-814 | a step on an unparked head parks it on a new episode, leaving no binding behind, or binds the result and advances the head by one stage and one step |
| StageRun.ParkedStep | src/whetstone/platform/step_executor.py:550-570 | a step on a parked head emits the same episode again and changes nothing |
| StageRun.FinishingStep | src/whetstone/platform/step_executor.py:785-814 | from every reachable unparked head, an answer that finishes binds a result with the head's own request, that answer and no resolutions; the head moves on by one stage and step, is terminal exactly when the answer does not continue, and then has no successor |
| StageRun.DeferringStep | src/whetstone/platform/step_executor.py:733-779 | a deferral parks the head on the barrier of its rows with a continuing pending result that answers the head's own request; nothing else is left bound |
| StageRun.StepsAside | src/whetstone/platform/step_executor.py:573-619 | a step stage is refused exactly when it is called at another stage than its head's, or its episode's origin; a terminal head is reported without successor, a parked one emits its fan-out again; none of these changes anything |
| StageRun.RowBindsOnce | src/whetstone/platform/eval_fanin.py:127-172 | a row stage binds its row exactly at the stage of its ordinal, reports a bound row again, and touches nothing else |
| StageRun.FaninVerdict | src/whetstone/platform/eval_fanin.py:521-566 | a fan-in resumes the head, repeats its report, or leaves the head alone, and which one follows from the head |
| StageRun.ResumingFanin | src/whetstone/platform/eval_fanin.py:604-671 | a fan-in succeeds exactly at its barrier with all its rows bound; taking the head off its episode it binds the resolutions once, keeps all step results and hands the same step on to the next stage |
| StageRun.StageNeverDecreases | src/whetstone/platform/eval_fanin.py:438-474 | over every run of steps on the current head and replayed fan-ins the head's stage never decreases |
| StageRun.EachEpisodeResumesOnce | src/whetstone/platform/eval_fanin.py:604-671 | every episode takes the head off itself exactly once if some fan-in of it succeeds, and otherwise never |
| StageRun.ReplayedFanins | src/whetstone/platform/eval_fanin.py:640-671 | a repeat of the latest fan-in reports the same successor and keeps the head; a stale one keeps the head and reports none |
| StageRun.StagesNeverConflict | src/whetstone/platform/step_executor.py:573-626 | no stage of a run meets a binding conflict; a failing stage writes nothing |
| StageRun.UnknownTasksStick | src/whetstone/platform/step_executor.py:296-392 | a deferral that names unknown tasks fails at its expansion with the placeholder and its intents bound, and so does every later step, without changing anything more |
| StagePlainRun.FinishingPlainStep | src/whetstone/platform/step_executor.py:785-814 | the same as `FinishingStep` for the other optimizers, at a step that is not bound yet |
| StagePlainRun.DeferringPlainStep | src/whetstone/platform/step_executor.py:733-779 | the same as `DeferringStep` for them |
| StagePlainRun.RepeatingPlainStep | src/whetstone/optim/harness.py:233-257 | at a step that is bound already the bound result is taken over, whatever the optimizer would answer now, and nothing is bound |
| StagePlainRun.PlainStepsAside | src/whetstone/platform/step_executor.py:573-619 | the same as `StepsAside` for them |
| StagePlainRun.MergingFanin | src/whetstone/platform/eval_fanin.py:567-593 | a fan-in succeeds exactly at its barrier with all its rows bound and no other result at its step; it binds the resolutions once, binds the step to the pending result with them, and hands the next step on to the next stage |
| StagePlainRun.ResultsAreForever | src/whetstone/platform/eval_fanin.py:567-593 | however often a replayed fan-in takes the head back, no bound step result is lost or replaced |
| StagePlainRun.ReplayMovesHead | src/whetstone/platform/eval_fanin.py:567-593 | a successful fan-in puts the head on its own merge, ahead of, level with or behind the old head on one chain of results; it goes back exactly when the old results properly extend the merge's |
| StagePlainRun.HeadCatchesUp | src/whetstone/optim/harness.py:233-257 | a head taken back is on the same results again after as many steps as it lost, whatever the optimizer would answer now, and nothing new is bound |
| StagePlainRun.OrderlyRunsNeverConflict | src/whetstone/platform/eval_fanin.py:567-593 | in runs that defer once in a step, no step and no fan-in of any episode meets a conflicting result, and a failing fan-in writes nothing |
| StagePlainRun.StageFallsIffMovedPast | src/whetstone/platform/eval_fanin.py:567-593 | in such runs a successful fan-in lowers the stage exactly when the head holds all results of this episode's merge and is no longer that state |
| FallenHead.EveryEpisodeCanFallBack | src/whetstone/platform/eval_fanin.py:567-593 | from every such state parked on an episode with rows, some continuation lowers the head's stage by a replayed fan-in |
| FallenHead.SomeHeadFallsBack | src/whetstone/platform/eval_fanin.py:567-593 | there is such a run |
| FallenHead.StagesDoNotOrderRepeats | src/whetstone/platform/eval_fanin.py:567-593 | once a step that has deferred runs again, a fan-in can take the head back to fewer results and to a higher stage |
| StageRetry.RetryIffRecoverable | src/whetstone/platform/step_executor.py:296-392 | a retry, from either reference and any intermediate store, reports what the uncrashed step reports exactly when the store is recoverable |
| StageRetry.CrashedAttemptsAreHarmless | src/whetstone/platform/step_executor.py:714-779 | any number of crashed attempts from the work state and one whole attempt give the report and the exact store of the uncrashed step |
| StageRetry.OneCrashSameStoreIff | src/whetstone/platform/step_executor.py:178-231 | after one crash in the uncrashed step, a retry leaves its store exactly when it does not start from the work input with the placeholder bound beside the parked head, which is one cut of the eight |
| StageRetry.RetrySettlesIff | src/whetstone/platform/step_executor.py:573-626 | the same from any store that crashed attempts can leave |
| StageRetry.MixedAttempts | src/whetstone/platform/step_executor.py:178-231 | crashed attempts from both references in any order keep the step recoverable exactly when none from the work input found the placeholder beside the parked head and evicted its intents; then a whole attempt gives the report, and the store, of the uncrashed step |
| StageRetry.ResumeLeavesPlaceholder | src/whetstone/platform/step_executor.py:603-619 | a crash before the eviction and a work-input retry report the same but leave the placeholder bound |
| StageRetry.BlockedIffPlaceholderLeft | src/whetstone/optim/harness.py:233-257 | GEPA's next step, or the other optimizers' fan-in, conflicts exactly when a placeholder is left; without one the fan-in merges and the next step goes on |
| StageRetry.PlaceholderBlocks | src/whetstone/optim/harness.py:233-257 | the store a work-input retry leaves after the bad cut is not recoverable from the work state and runs into that conflict |
| StageRetry.RunsAreReady | src/whetstone/platform/step_executor.py:603-713 | every unparked head of a GEPA run meets the conditions of the crash results |
| StageRetry.PlainRunsAreReady | src/whetstone/platform/step_executor.py:603-713 | and so does, for the other optimizers, every unparked head at a step that is not bound yet |
| StageExecutor.MemberStore.LoadWorkState | src/whetstone/platform/step_executor.py:178-231 | the reference, the accepted head, or the scan of the bound results |
| StageExecutor.MemberStore.BoundUnresolvedStep | src/whetstone/platform/step_executor.py:296-321 | the current step is looked at before the previous one |
| StageExecutor.MemberStore.PersistWorkState | src/whetstone/platform/work_state_head.py:13-22 | the head is evicted and bound again, and a crash may fall in between |
| StageExecutor.MemberStore.Defer | src/whetstone/platform/step_executor.py:733-779 | a deferral writes its bindings in this order, up to a crash, and reports the fan-out |
| StageExecutor.MemberStore.Resume | src/whetstone/platform/step_executor.py:550-570 | a parked head is bound again, its fan-out emitted and its intents evicted |
| StageExecutor.MemberStore.RunOptimizer | src/whetstone/optim/harness.py:215-379 | the step's own writes, its replay of an equal request and its conflicts |
| StageExecutor.MemberStore.ExecuteOptimStep | src/whetstone/platform/step_executor.py:573-814 | the store after the writes made before a crash, and the outcome when there is none |
| StageExecutor.MemberStore.ExecuteEvalRow | src/whetstone/platform/eval_fanin.py:127-172 | a row is bound once, at the stage its ordinal requires |
| StageExecutor.MemberStore.ExecuteEvalFanin | src/whetstone/platform/eval_fanin.py:719-791 | the checks, the write-once fan-in binding, the verdict on the head and the writes up to a crash |
| PromptCacheFiles.FinalizeKeeps | src/whetstone/execution/prompt_cache.py:671-696 | finalizing a published journal keeps the accounting invariant and removes exactly that journal |
| PromptCacheFiles.ReconcileSettles | src/whetstone/execution/prompt_cache.py:592-624 | reconciling a key always succeeds, settles that key and touches no other |
| PromptCacheFiles.ReconcileAllIsExact | src/whetstone/execution/prompt_cache.py:547-570 | from any state crashes may leave, reconciling all keys makes the counters exact |
| PromptCacheFiles.ExactWhenSettled | src/whetstone/execution/prompt_cache.py:485-517 | without journals, stores equals the entries ever written, misses the journaled misses, and nothing is in flight |
| CacheMachine.CrashesNeverMiscount | src/whetstone/execution/prompt_cache.py:547-720 | after any interleaving with crashes between file operations, reconciling makes the counters exact |
| CacheMachine.JournalErrorsAreUnreachable | src/whetstone/execution/prompt_cache.py:592-641 | the "both journals" and publication-mismatch errors cannot happen |
| CacheMachine.ProviderCalledOnce | src/whetstone/execution/prompt_cache.py:819-898 | a key's provider calls are at most one more than its crashes and damages, where damage from outside strikes an entry that is unlocked and has no journal |
| CacheMachine.AnswersAgree | src/whetstone/execution/prompt_cache.py:356-423 | on an undamaged key every answer is the first entry's |
| CacheMachine.HitsPlusMisses | src/whetstone/execution/prompt_cache.py:425-483 | without crashes hits plus misses is the number of finished calls and direct notes |
| PromptResultCacheService.PromptResultCache.CleanupAppliedAccounting | src/whetstone/execution/prompt_cache.py:698-720 | the in-flight id is released before the applied journal goes, up to a crash |
| PromptResultCacheService.PromptResultCache.FinalizeAccounting | src/whetstone/execution/prompt_cache.py:671-696 | count, promote, clean up; the invariant holds wherever it stops |
| PromptResultCacheService.PromptResultCache.ReconcileKeyAccounting | src/whetstone/execution/prompt_cache.py:592-624 | the key ends settled, or the process died with the invariant intact |
| PromptResultCacheService.PromptResultCache.PublishEntry | src/whetstone/execution/prompt_cache.py:485-517 | pending journal, entry, finalization; one store and the journaled misses are counted |
| PromptResultCacheService.PromptResultCache.GetResult | src/whetstone/execution/prompt_cache.py:356-366 | the entry's record, nothing, or an unreadable entry; reading counts nothing |
| PromptResultCacheService.PromptResultCache.Put | src/whetstone/execution/prompt_cache.py:368-423 | the first readable entry wins; a corrupt one is quarantined and replaced; finding an entry counts nothing and any other put counts one store, no hit and no miss |
| PromptResultCacheService.PromptResultCache.ExecuteCall | src/whetstone/execution/prompt_cache.py:819-898 | an entry is one hit and its record the answer; otherwise the call's record is published with one miss and one store |
| PromptResultCacheService.PromptResultCache.Counters | src/whetstone/execution/prompt_cache.py:431-439 | all keys are reconciled before the counters are read |
| PromptResultCacheService.ReconcileMintsNothing | src/whetstone/execution/prompt_cache.py:592-624 | reconciling never publishes anything new |
| StepChain.Debit | src/whetstone/optim/contracts.py:327-345 | succeeds exactly when every label is declared and affordable, and then gives the debited budget |
| StepChain.DebitConserves | src/whetstone/optim/contracts.py:327-345 | consumed plus remaining stays the same for every label |
| StepChain.ChainHasNoGaps | src/whetstone/optim/run_store.py:371-426 | the bound results of a run form a gap-free chain in which each cites its exact predecessor, and nothing follows a terminal one |
| StepChain.BudgetIsConserved | src/whetstone/optim/contracts.py:1361-1366 | over the whole chain consumed plus remaining is constant per label and consumed grows by what the steps spent |
| StepChain.BindingsAreForever | src/whetstone/optim/harness.py:363-376 | bound runs, results and terminal results never change |
| StepChain.AssembledIsValid | src/whetstone/optim/harness.py:1289-1350 | assembly succeeds exactly on the whole chain once it has stopped; the result names that run, its steps and the last step's proposals, failure and retained seed, and always passes the terminal validation |
| StepChain.TerminalCardinality | src/whetstone/optim/contracts.py:231-269 | a complete step accepts what the run's terminal contract asks, or retains the run's own seed |
| StepChain.StepCardinality | src/whetstone/optim/contracts.py:231-269 | every bound step of a reachable world: a failed one accepts none, a complete one what its contract's and its run's terminal count name (or retains the run's seed and accepts none), a continuing one the returned count or, with a floor, between both |
| StepChain.RefusedIff | src/whetstone/optim/harness.py:652-740 | an output that reaches the contract check is refused exactly when it misses one of these field conditions |
| StepChain.PreparedCarriesOutput | src/whetstone/optim/harness.py:338-366 | a prepared result carries the request, the output and the debited budget field by field |
| StepChain.OneTerminalResult | src/whetstone/optim/harness.py:1211-1287 | all terminal results ever assembled or bound for a run are the same |
| StepChain.ReplayReturnsBound | src/whetstone/optim/harness.py:233-257 | running a bound request again returns its result, whatever the adapter would answer now |
| StepHarness.OptimHarness.Bind | src/whetstone/optim/run_store.py:162-211 | a run id is bound once; the harness remembers the run only on success |
| StepHarness.OptimHarness.ValidatePrior | src/whetstone/optim/run_store.py:371-426 | accepts exactly a request that carries on its bound, continuing predecessor |
| StepHarness.OptimHarness.RunStep | src/whetstone/optim/harness.py:215-379 | binds the prepared result at the run and index of its request, returns a bound one, or changes nothing |
| StepHarness.OptimHarness.AssembleTerminal | src/whetstone/optim/harness.py:1289-1350 | the checking loop accepts exactly the bound chain |
| StepHarness.OptimHarness.Terminalize | src/whetstone/optim/harness.py:1211-1287 | binds the assembled result once, returns it again on replay, refuses any other; steps and runs stay |
| IndexKeys.KeysDistinct | src/whetstone/optim/run_store.py:113-115 | two positions never share a binding key, whatever characters the run ids contain |
| NestedMean.UnweightedTaskMean | src/whetstone/eval/aggregate.py:334-416 | succeeds exactly on planned tasks observed once with no more rows than seeds; a defined value times the number of tasks with a scored row is the sum of those tasks' means |
| NestedMean.DefinedIff | src/whetstone/eval/aggregate.py:318-399 | the mean is defined exactly when some row is scored and none is lost, or the unscored share is within tolerance |
| NestedMean.TaskInputShape | src/whetstone/eval/aggregation.py:30-78 | what one task hands to the outer level, by the states of its rows |
| NestedMean.MeanOverTasks | src/whetstone/eval/aggregate.py:381-403 | a defined value is the unweighted mean over the tasks with a scored row of the means of their scored rows |
| NestedMean.RowCountsDoNotWeigh | src/whetstone/eval/aggregate.py:381-403 | repeating every task's scored rows, each task its own number of times, changes no defined value |
| NestedMean.OutputCountsTasks | src/whetstone/eval/aggregate.py:381-403 | the counts beside the value are of tasks: all, those with a scored or lost row, and those whose mean counts |
| NestedMean.MeanLiesWithin | src/whetstone/eval/aggregation.py:74-78 | a defined mean lies between the least and the greatest scored row |
| NestedMean.AccountingCoversPlan | src/whetstone/eval/aggregate.py:202-228 | the four row counts sum to tasks times seeds |
| NestedMean.AccountingIsExact | src/whetstone/eval/aggregate.py:250-255 | the four row counts are the numbers of planned cells with a scored, missing, failed and invalid row |
| NestedMean.PlannedCells | src/whetstone/eval/aggregate.py:173-183 | the completed matrix holds each observed row at its place and a missing one everywhere else |
| NestedMean.ObservedOrderIsIrrelevant | src/whetstone/eval/aggregate.py:350-372 | neither acceptance nor the result depends on the order of observation |
| RowAssembly.ValidateRows | src/whetstone/eval/schema.py:339-407 | unblank unique task hashes, unique keys, increasing ordinals and coverage accept exactly the rows in exact row-major order with consistent names |
| RowAssembly.CoverIff | src/whetstone/eval/schema.py:242-284 | strictly increasing ordinals that cover the plan force exact row-major order |
| RowAssembly.AssembleFromRowSlices | src/whetstone/eval/runtime_engine.py:471-597 | the loops over the slices give the assembled vectors, mean and ordered rows |
| RowAssembly.AssemblesIff | src/whetstone/eval/runtime_engine.py:458-537 | assembly succeeds exactly when the slices agree, name known tasks consistently and are a permutation of the matrix |
| RowAssembly.VectorsAreRows | src/whetstone/eval/runtime_engine.py:573-586 | every entry of the row vectors is the value of the row at its place |
| RowAssembly.EverySliceHasItsRow | src/whetstone/eval/runtime_engine.py:499-586 | every slice has its row at its place in the matrix, with its own output and value under the hash of its task, and there are as many rows as slices |
| RowAssembly.AssembledMean | src/whetstone/eval/runtime_engine.py:588-597 | a defined assembled value is the unweighted mean over tasks of the means of the assembled scores |
| RowAssembly.SliceOrderIsIrrelevant | src/whetstone/eval/runtime_engine.py:638-673 | the order of the slices changes neither success nor the rows, the vectors, the aggregate or its counts |
| RowDerivation.ValidateRowDerivation | src/whetstone/eval/evidence_validation.py:380-454 | the loops accept exactly counts and values derived from the published rows |
| RowDerivation.ScoreIsAccepted | src/whetstone/eval/drivers/eval_result.py:26-56 | under either policy a task's score is the mean of its present rows, and is withheld only when a row was lost |
| RowDerivation.AssembledEvidenceValidates | src/whetstone/eval/runtime_engine.py:622-673 | the rows, per-task counts and per-task scores that assembly publishes always pass the validator |
| SeedPlan.ListTrials | src/whetstone/eval/plan.py:136-148 | task by task and seed by seed, with the recorded random seed |
| SeedPlan.TrialAt | src/whetstone/eval/plan.py:136-148 | the trial of a task and seed stands at task * seeds + seed and carries the recorded random seed of its own key |
| SeedPlan.FromProvenance | src/whetstone/eval/plan.py:165-214 | accepts exactly unrepeated rows with contiguous equal indices for every task |
| SeedPlan.RebuiltIsValid | src/whetstone/eval/plan.py:114-134 | a plan rebuilt from accepted rows keeps the given identity and passes its own validation, because slot keys are injective |
| SeedPlan.RowsAreTrials | src/whetstone/eval/plan.py:201-214 | accepted rows, in any order, are as a set exactly the rebuilt plan's trials |
| SeedPlan.PlanRoundTrip | src/whetstone/eval/plan.py:136-214 | rebuilding a valid plan from its own trials gives the same trials |
| JsonSize.ValueCostIsPrint | src/whetstone/eval/traces.py:91-145 | exactly the strict values within the depth bound are counted, and they count as the bytes of their print |
| JsonSize.JsonByteCounter.AddString | src/whetstone/eval/traces.py:69-88 | the loop adds the printed bytes of the string and stops at the first fault or the limit |
| JsonSize.JsonByteCounter.AddValue | src/whetstone/eval/traces.py:94-143 | the walk adds the cost of the value with the same early exit |
| JsonSize.BoundedCanonicalJsonSize | src/whetstone/eval/traces.py:91-145 | returns the printed length, and fails exactly on a value that is not strict, too deep or too long |
| JsonSize.SeparatedSumIsPrint | src/whetstone/eval/traces.py:148-159 | step sizes and separators add up to the printed list |
| JsonSize.BoundedTraceJsonSize | src/whetstone/eval/traces.py:148-159 | the sum with its early exit |
| JsonSize.ValidateTrace | src/whetstone/eval/traces.py:240-251 | accepts exactly short traces with contiguous indexes whose whole print is within the bound |
| Template.PlaceholderFields | src/whetstone/experiment/candidate.py:118-160 | the scanning loop gives the list of fields, or the first error |
| Template.ScannerIsFormat | src/whetstone/experiment/candidate.py:126-160 | a text is accepted exactly when formatting can split it into plain named fields, and the list is exactly what formatting substitutes |
| Template.Render | src/whetstone/experiment/candidate.py:193-224 | succeeds exactly on valid templates whose fields all have string values, never looks up a missing name, and says which error comes first |
| Template.ValidIff | src/whetstone/experiment/candidate.py:162-191 | valid exactly when not empty, readable, with available fields only and every required field at least as often as required |
| Template.RenderingConcatenates | src/whetstone/experiment/candidate.py:193-224 | a template made of two that format can split renders to what they render to, one after the other |
| Template.RenderingOfPieces | src/whetstone/experiment/candidate.py:193-224 | a placeholder renders to its value and any other character, a brace doubled, to itself |
| Template.ReplacementLaw | src/whetstone/experiment/candidate.py:217-223 | literal replacement puts the value in place of the first occurrence and goes on behind it |
| Template.DoubledBracesRenderBack | src/whetstone/experiment/candidate.py:126-158 | doubling braces gives a template without fields that renders back |
| Template.ReplacementCounts | src/whetstone/experiment/candidate.py:122-124 | the reported fields are the places where the placeholder occurs, and fix the rendered length |
| LeaseText.Details.LeaseText | src/whetstone/core/leasing.py:132-159 | the coerced text, and the original recorded in the details exactly when they differ |
| LeaseText.ToLeaseFailure | src/whetstone/core/leasing.py:162-169 | code first, then message, over the same details |
| LeaseText.FromLeaseFailure | src/whetstone/core/leasing.py:177-200 | what decoding restores, and when it raises |
| LeaseText.EncodedIsAccepted | src/whetstone/core/leasing.py:138-153 | encoded text is not blank, at most 1024 long and free of NUL and surrogates |
| LeaseText.ShapeIs | src/whetstone/core/leasing.py:138-153 | the text without NUL and surrogates, cut to 1021 characters and three dots beyond 1024, or a text naming the field when nothing visible is left |
| LeaseText.CleanKeeps | src/whetstone/core/leasing.py:138-143 | cleaning drops NUL and surrogates, character by character, and nothing else |
| LeaseText.RecordedIff | src/whetstone/core/leasing.py:132-169 | exactly the texts that a lease would not accept have their original recorded, escaped; nothing else of the details changes |
| LeaseText.EscapeReadsBack | src/whetstone/core/leasing.py:124-129 | escaping any text, unpaired surrogates included, gives ASCII that unescapes to it |
| LeaseText.FailureRoundTrip | src/whetstone/core/leasing.py:177-200 | an encoded failure decodes to itself exactly when its details lack the reserved key |
| LeaseText.DecodedEncodesBack | src/whetstone/core/leasing.py:185-200 | what decodes from accepted text encodes to the same code and message; exactly when decoding raises |
| LeaseText.StuffedEnvelopeRaises | src/whetstone/core/leasing.py:128-129 | an envelope entry on which decoding raises |
| Pareto.CheckDominates | src/whetstone/experiment/objectives.py:136-164 | true exactly when every value is at least as good in its own direction and not all are equal; vectors that differ in names or directions are refused |
| Pareto.DominanceIsStrictOrder | src/whetstone/experiment/objectives.py:136-164 | dominance is irreflexive, asymmetric and transitive |
| Pareto.ParetoFront | src/whetstone/experiment/objectives.py:187-255 | refuses no or differing candidates; keeps exactly the candidates that no pairwise check finds dominated; the front's own order check never fails |
| Pareto.FrontIsComplete | src/whetstone/experiment/objectives.py:237-255 | the front is not empty, ascending and free of dominance, and dominates every candidate left out |
| ProviderDriver.DelaysGrowFrom | src/whetstone/provider/policy.py:85-103 | a later attempt never waits less |
| ProviderDriver.DelaysGrow | src/whetstone/provider/policy.py:85-103 | no delay exceeds the maximum, and the first wait is the base |
| ProviderDriver.DelaysMultiply | src/whetstone/provider/policy.py:85-103 | each delay is the one before it times the multiplier, up to the maximum |
| ProviderDriver.Driver.Run | src/whetstone/provider/driver.py:49-116 | the loop's attempts, and the exact time it sleeps and calls |
| ProviderDriver.RunsAreContiguous | src/whetstone/provider/driver.py:49-116 | attempts are 1 to k, k at most the allowed number, in time order; only retryable failures are retried |
| ProviderDriver.AttemptsAreReplies | src/whetstone/provider/driver.py:49-116 | each attempt starts its delay after the one before it ended, lasts as long as its call and records what the transport answered |
| ProviderDriver.RunMeetsDeadline | src/whetstone/execution/call_support.py:239-256 | if no call outlasts its timeout, sleeping and calling stay within the deadline less its margin |
| ProviderDriver.RunsMeetDeadline | src/whetstone/execution/call_support.py:239-256 | so do several wire calls within the deadline for their number |
| ProviderDriver.DeadlineIsTight | src/whetstone/execution/call_support.py:239-256 | calls that all fail at their timeout take exactly that deadline less its margin |

## Left out

- Content hashes, canonical JSON and record parsing: a reference is modelled by the record it names.
- The claim machine follows one intent; intents share nothing but the store.
- The claim log is a contiguous sequence: a gap in its ordinals would be a lost binding, which is proved unreachable.
- Evidence graphs: of `_validate_result_graph` only the attestation gate is modelled, not the graphs behind a result.
- EvalClaims: its retry loops give up after `patience` rounds, because nothing bounds how often other resolvers get in between.
- The platform model follows one member in platform dispatch; the run-member terminal binding, launch checks, the row ledger and inline dispatch are not part of it.
- A sampling has at least one task and one seed; the source refuses to build an empty one.
- StageRun.StageNeverDecreases: is about GEPA members, steps on the current head and stages that are not cut short; for the other optimizers it is false, and `StagePlainRun.StageFallsIffMovedPast` says when.
- Deferrals that name unknown tasks are no events of a run: `StageRun.UnknownTasksStick` shows that a member never gets past one.
- StagePlainRun.HeadCatchesUp: steps run on the current head; a step stage replayed with an older state as its reference is not part of a run.
- RowAssembly.ValidateRows: takes rows whose own fields passed their record's checks.
- Evidence, tool calls, candidates' mutation surfaces and run cost in step results and terminal results.
- Supplemental aggregates, rewards and cache evidence of an assembled evaluation; the cache's list of source call ids follows the order of the slices.
- Rounding and overflow of floats: scores, delays and fractions are reals, and the text of a JSON float is whatever the float printer gives.
- Prompt cache files: private modes, fsync, temporary names and log lines; one write, rename or unlink is one step.
- Adapters, drivers and provider transports are functions of their request; their search and network code is not modelled.
- The character classes of identifiers and the table of character names are parameters.
- Command line, deployment, submission, sandboxing, pricing and configuration.
