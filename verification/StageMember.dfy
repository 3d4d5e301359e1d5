/** What each stage of one platform member reads and writes: the head, the step-result bindings, the
    deferred-intent bindings, the finished rows and the fan-in bindings.  A stage is given as the list of
    store writes it makes, in order, and the outcome it reports; a crash cuts the list short. */
module StageMember {
  import opened StageFanOut

  datatype Member = Member(
    head: Option<WorkState>,
    steps: map<nat, StepResult>,
    deferred: map<nat, seq<Intent>>,
    rows: set<RowInput>,
    fanins: map<Join, seq<nat>>)

  datatype Write =
    | BindStep(at: nat, result: StepResult)
    | EvictStep(at: nat)
    | BindDeferred(at: nat, intents: seq<Intent>)
    | EvictDeferred(at: nat)
    | EvictHead
    | BindHead(state: WorkState)
    | BindRow(row: RowInput)
    | BindFanin(join: Join, resolutions: seq<nat>)

  /** Rebinding a bound key to the same record changes nothing; stages check for any other rebinding first. */
  function Apply(m: Member, w: Write): Member {
    match w
    case BindStep(at, result) => m.(steps := m.steps[at := result])
    case EvictStep(at) => m.(steps := m.steps - {at})
    case BindDeferred(at, intents) => m.(deferred := m.deferred[at := intents])
    case EvictDeferred(at) => m.(deferred := m.deferred - {at})
    case EvictHead => m.(head := None)
    case BindHead(state) => m.(head := Some(state))
    case BindRow(row) => m.(rows := m.rows + {row})
    case BindFanin(join, resolutions) => m.(fanins := m.fanins[join := resolutions])
  }

  function ApplyAll(m: Member, ws: seq<Write>): Member {
    if ws == [] then m else Apply(ApplyAll(m, ws[..|ws| - 1]), ws[|ws| - 1])
  }

  lemma {:induction false} ApplyAllConcat(m: Member, a: seq<Write>, b: seq<Write>)
    ensures ApplyAll(m, a + b) == ApplyAll(ApplyAll(m, a), b)
  {
    if b == [] {
      assert a + b == a;
    } else {
      assert (a + b)[..|a + b| - 1] == a + b[..|b| - 1];
      ApplyAllConcat(m, a, b[..|b| - 1]);
    }
  }

  datatype Failure =
    | WrongStageIndex | NotPending | NoOrigin | NoIntents | NoPriorResult | PriorMismatch | PriorNotContinuing
    | StepConflict | DeferredConflict | UnknownTask | RowsMissing | NoRows

  datatype Outcome = Completed(output: WorkState, successors: seq<Successor>) | Merged(join: Join, next: seq<Successor>) | Failed(why: Failure)

  datatype Plan = Plan(writes: seq<Write>, outcome: Outcome)

  /** What the optimizer returns for a step: it finishes the step, or it defers its intents and continues. */
  datatype Output = Finish(continues: bool, evidence: nat) | Defer(intents: seq<Intent>, evidence: nat)

  /** The registered runtime.  `adapter` is the optimizer, deterministic in its request. */
  datatype Runtime = Runtime(gepa: bool, engine: Engine, adapter: Request -> Output)

  // ---------------------------------------------------------------- loading the work state

  datatype Input = StateRef(state: WorkState) | WorkInput(stage: nat)

  /** `_accept_work_state_head`, for a head and an input of the same run. */
  predicate Accepts(head: WorkState, stage: nat) {
    head.stage >= stage && (head.pending.Some? || head.stage == stage)
  }

  function KeysFrom(m: map<nat, StepResult>, from: nat): set<nat> {
    set k | k in m.Keys && k >= from
  }

  /** Rebuilds the work state from the bound step results. */
  function Scan(steps: map<nat, StepResult>, stage: nat, at: nat, refs: seq<StepResult>): WorkState
    decreases KeysFrom(steps, at)
  {
    if at !in steps then WorkState(stage, at, refs, false, None, None, [])
    else if !steps[at].continues then WorkState(stage, at + 1, refs + [steps[at]], true, None, None, [])
    else
      assert at in KeysFrom(steps, at) && at !in KeysFrom(steps, at + 1);
      Scan(steps, stage, at + 1, refs + [steps[at]])
  }

  /** `_load_work_state`. */
  function Load(m: Member, input: Input): WorkState {
    match input
    case StateRef(state) => state
    case WorkInput(stage) =>
      if m.head.Some? && Accepts(m.head.value, stage) then m.head.value else Scan(m.steps, stage, 0, [])
  }

  // ---------------------------------------------------------------- deferral

  function Take<T>(s: seq<T>, n: nat): seq<T> {
    if n <= |s| then s[..n] else s
  }

  predicate Unresolved(m: Member, at: nat) {
    && at in m.steps && m.steps[at].continues && m.steps[at].resolved == []
    && at in m.deferred && m.deferred[at] != []
  }

  /** `_bound_unresolved_deferral_step_index`. */
  function UnresolvedStep(m: Member, state: WorkState): Option<nat> {
    if Unresolved(m, state.stepIndex) then Some(state.stepIndex)
    else if state.stepIndex > 0 && Unresolved(m, state.stepIndex - 1) then Some(state.stepIndex - 1)
    else None
  }

  function Rebind(state: WorkState): seq<Write> {
    [EvictHead, BindHead(state)]
  }

  /** The end of every deferral: the intents are persisted, the head is parked, the fan-out is emitted and
      the placeholder and its intents are evicted. */
  function DeferralPlan(rt: Runtime, m: Member, stage: nat, at: nat, chain: seq<StepResult>, intents: seq<Intent>, result: StepResult): Plan
    requires intents != []
  {
    if at in m.deferred && m.deferred[at] != intents then Plan([], Failed(DeferredConflict))
    else if !AllKnown(rt.engine, intents) then Plan([BindDeferred(at, intents)], Failed(UnknownTask))
    else
      var origin := WorkState(stage, at, Take(chain, at), false, None, None, []);
      var parked := Parked(rt.engine, origin, intents, stage, result);
      Plan([BindDeferred(at, intents)] + Rebind(parked) + [EvictStep(at), EvictDeferred(at)],
           Completed(parked, Emitted(rt.engine, intents, stage, parked)))
  }

  function ResumePlan(rt: Runtime, state: WorkState): Plan {
    if state.origin.None? then Plan([], Failed(NoOrigin))
    else if state.intents == [] then Plan([], Failed(NoIntents))
    else if !AllKnown(rt.engine, state.intents) then Plan(Rebind(state), Failed(UnknownTask))
    else
      Plan(Rebind(state) + [EvictDeferred(state.stepIndex)],
           Completed(state, Emitted(rt.engine, state.intents, state.origin.value, state)))
  }

  // ---------------------------------------------------------------- the optimizer step

  /** `run_step`: the writes it makes, the result, and the intents it remembers as deferred. */
  datatype StepRun = StepRun(writes: seq<Write>, result: StepResult, deferred: seq<Intent>) | StepError(writes: seq<Write>, why: Failure)

  function RequestOf(rt: Runtime, state: WorkState): Request {
    Request(if rt.gepa then Some(state.stage) else None, state.stepIndex, state.steps)
  }

  function ResultOf(rt: Runtime, request: Request): StepResult {
    var output := rt.adapter(request);
    StepResult(request, output.Defer? || output.continues, [], output.evidence)
  }

  function DeferredOf(rt: Runtime, request: Request): seq<Intent> {
    var output := rt.adapter(request);
    if output.Defer? then output.intents else []
  }

  function RunStep(rt: Runtime, m: Member, state: WorkState): StepRun {
    var request := RequestOf(rt, state);
    var at := state.stepIndex;
    if at > 0 && state.steps == [] then StepError([], NoPriorResult)
    else if at > 0 && at - 1 !in m.steps then StepError([], NoPriorResult)
    else if at > 0 && m.steps[at - 1] != state.steps[|state.steps| - 1] then StepError([], PriorMismatch)
    else if at > 0 && !m.steps[at - 1].continues then StepError([], PriorNotContinuing)
    else if at in m.steps then
      if m.steps[at].request == request then StepRun([], m.steps[at], []) else StepError([], StepConflict)
    else
      var result, intents := ResultOf(rt, request), DeferredOf(rt, request);
      if intents == [] then StepRun([BindStep(at, result)], result, [])
      else if at in m.deferred && m.deferred[at] != intents then StepError([], DeferredConflict)
      else StepRun([BindDeferred(at, intents), BindStep(at, result)], result, intents)
  }

  /** The intents that count as deferred once the step has run. */
  function DeferredAfter(m: Member, state: WorkState, run: StepRun): seq<Intent>
    requires run.StepRun?
  {
    if run.result.resolved == [] && run.result.continues && run.deferred == [] then
      if state.intents != [] then state.intents
      else if state.stepIndex in m.deferred then m.deferred[state.stepIndex] else []
    else run.deferred
  }

  function Advanced(state: WorkState, result: StepResult): WorkState {
    WorkState(state.stage + 1, state.stepIndex + 1, state.steps + [result], !result.continues, None, None, [])
  }

  /** What is recorded once the optimizer has run: a deferral, or a finished step. */
  function RecordPlan(rt: Runtime, m: Member, state: WorkState, result: StepResult, intents: seq<Intent>): Plan {
    if result.resolved == [] && intents != [] && result.continues then
      DeferralPlan(rt, m, state.stage, state.stepIndex, state.steps, intents, result)
    else
      var next := Advanced(state, result);
      Plan([BindStep(state.stepIndex, result)] + Rebind(next),
           Completed(next, if next.terminal then [] else [StepStage(next.stage, next)]))
  }

  /** A step that runs the optimizer. */
  function FreshPlan(rt: Runtime, m: Member, state: WorkState): Plan {
    var run := RunStep(rt, m, state);
    if run.StepError? then Plan(run.writes, Failed(run.why))
    else
      var rest := RecordPlan(rt, ApplyAll(m, run.writes), state, run.result, DeferredAfter(m, state, run));
      Plan(run.writes + rest.writes, rest.outcome)
  }

  /** `_recover_crash_window_deferral`. */
  function RecoverPlan(rt: Runtime, m: Member, state: WorkState, at: nat): Plan
    requires Unresolved(m, at)
  {
    DeferralPlan(rt, m, state.stage, at, state.steps, m.deferred[at], m.steps[at])
  }

  predicate StageAgrees(claimed: Option<nat>, expected: nat) {
    claimed.None? || claimed.value == expected
  }

  /** `execute_optim_step_sync`. */
  function OptimPlan(rt: Runtime, m: Member, input: Input, claimed: Option<nat>): Plan {
    var state := Load(m, input);
    var expected := if state.pending.Some? && state.origin.Some? then state.origin.value else state.stage;
    if !StageAgrees(claimed, expected) then Plan([], Failed(WrongStageIndex))
    else if state.terminal then Plan(Rebind(state), Completed(state, []))
    else if state.pending.Some? then ResumePlan(rt, state)
    else
      var unresolved := UnresolvedStep(m, state);
      if unresolved.Some? then RecoverPlan(rt, m, state, unresolved.value) else FreshPlan(rt, m, state)
  }

  // ---------------------------------------------------------------- rows and fan-in

  /** `execute_eval_row_sync`. */
  function RowPlan(m: Member, row: RowInput, claimed: Option<nat>): Plan {
    if row in m.rows then Plan([], Completed(row.state, []))
    else if !StageAgrees(claimed, ExpectedRowIndex(row)) then Plan([], Failed(WrongStageIndex))
    else Plan([BindRow(row)], Completed(row.state, []))
  }

  /** `_head_is_later_episode`. */
  predicate HeadIsLater(head: WorkState, stepIndex: nat, episode: nat, resumeStage: nat) {
    if head.stepIndex != stepIndex then head.stepIndex > stepIndex
    else if head.origin.Some? then head.origin.value > episode
    else head.stage > resumeStage + 1
  }

  predicate IsStale(rt: Runtime, m: Member, join: Join) {
    rt.gepa && m.head.Some? && HeadIsLater(m.head.value, join.state.stepIndex, join.origin, join.state.stage)
  }

  /** `_finalize_deferred_step` for GEPA, with the stage bump of its caller. */
  function Resumed(m: Member, join: Join): WorkState {
    var state := join.state;
    if m.head.Some? && m.head.value.stepIndex == state.stepIndex && m.head.value.pending.None? && m.head.value.intents == [] then
      WorkState(state.stage + 1, m.head.value.stepIndex, m.head.value.steps, m.head.value.terminal, None, None, [])
    else
      WorkState(state.stage + 1, state.stepIndex, Take(state.steps, state.stepIndex), false, None, None, [])
  }

  /** `_finalize_deferred_step` for the optimizers that defer at most once in a step: the placeholder is
      bound again with its resolutions and becomes the step's result. */
  function MergedResult(join: Join, resolutions: seq<nat>): StepResult
    requires join.state.pending.Some?
  {
    join.state.pending.value.(resolved := resolutions)
  }

  function MergedState(join: Join, merged: StepResult): WorkState {
    WorkState(join.state.stage + 1, join.state.stepIndex + 1, join.state.steps + [merged], false, None, None, [])
  }

  function StepSuccessor(state: WorkState): seq<Successor> {
    [StepStage(state.stage, state)]
  }

  /** `execute_eval_fanin_sync`.  `found` are the resolutions of the episode's intents. */
  function FaninPlan(rt: Runtime, m: Member, join: Join, found: seq<nat>, claimed: Option<nat>): Plan {
    var state := join.state;
    if !StageAgrees(claimed, state.stage) then Plan([], Failed(WrongStageIndex))
    else if state.pending.None? then Plan([], Failed(NotPending))
    else if state.intents == [] then Plan([], Failed(NoIntents))
    else if |join.rows| != RowCount(rt.engine, state.intents) || !(forall row :: row in join.rows ==> row in m.rows)
    then Plan([], Failed(RowsMissing))
    else if join.rows == [] then Plan([], Failed(NoRows))
    else
      var resolutions := if join in m.fanins then m.fanins[join] else found;
      var bind := if join in m.fanins then [] else [BindFanin(join, found)];
      if IsStale(rt, m, join) then Plan(bind, Merged(join, []))
      else if rt.gepa then
        var next := Resumed(m, join);
        Plan(bind + [EvictDeferred(state.stepIndex)] + Rebind(next), Merged(join, StepSuccessor(next)))
      else
        var merged := MergedResult(join, resolutions);
        if state.stepIndex in m.steps && m.steps[state.stepIndex] != merged
        then Plan(bind + [EvictDeferred(state.stepIndex)], Failed(StepConflict))
        else
          var next := MergedState(join, merged);
          Plan(bind + [EvictDeferred(state.stepIndex), BindStep(state.stepIndex, merged)] + Rebind(next),
               Merged(join, StepSuccessor(next)))
  }

  /** The member after a stage that was not cut short. */
  function After(m: Member, plan: Plan): Member {
    ApplyAll(m, plan.writes)
  }
}
