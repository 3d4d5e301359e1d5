/** The executors of the platform stages as they run: they read the member's bindings, write them one by one
    and may crash before any write. */
module StageExecutor {
  import opened StageFanOut
  import opened StageMember

  /** `alive` says whether all of `ws` was written; a crash leaves a prefix. */
  ghost predicate Did(m: Member, budget: nat, m': Member, budget': nat, ws: seq<Write>, alive: bool) {
    var n := if budget < |ws| then budget else |ws|;
    m' == ApplyAll(m, ws[..n]) && budget' == budget - n && alive == (n == |ws|)
  }

  lemma DidThen(m: Member, b: nat, m1: Member, b1: nat, m2: Member, b2: nat, first: seq<Write>, second: seq<Write>, alive: bool)
    requires Did(m, b, m1, b1, first, true) && Did(m1, b1, m2, b2, second, alive)
    ensures Did(m, b, m2, b2, first + second, alive)
  {
    var n := if b1 < |second| then b1 else |second|;
    assert first[..|first|] == first;
    assert (first + second)[..|first| + n] == first + second[..n];
    ApplyAllConcat(m, first, second[..n]);
  }

  lemma DidStop(m: Member, b: nat, m1: Member, b1: nat, first: seq<Write>, second: seq<Write>)
    requires Did(m, b, m1, b1, first, false)
    ensures Did(m, b, m1, b1, first + second, false)
  {
    assert (first + second)[..b] == first[..b];
  }

  /** The bindings of one member, and how many more writes happen before the process dies. */
  class MemberStore {
    var head: Option<WorkState>
    var steps: map<nat, StepResult>
    var deferred: map<nat, seq<Intent>>
    var rows: set<RowInput>
    var fanins: map<Join, seq<nat>>
    var budget: nat

    constructor (budget: nat)
      ensures State() == Member(None, map[], map[], {}, map[]) && this.budget == budget
    {
      head, steps, deferred, rows, fanins := None, map[], map[], {}, map[];
      this.budget := budget;
    }

    function State(): Member
      reads this
    {
      Member(head, steps, deferred, rows, fanins)
    }

    /** One store write, or the crash. */
    method Perform(w: Write) returns (alive: bool)
      modifies this
      ensures Did(old(State()), old(budget), State(), budget, [w], alive)
    {
      if budget == 0 { return false; }
      assert [w][..1] == [w] && [w][..0] == [];
      match w {
        case BindStep(at, result) => steps := steps[at := result];
        case EvictStep(at) => steps := steps - {at};
        case BindDeferred(at, intents) => deferred := deferred[at := intents];
        case EvictDeferred(at) => deferred := deferred - {at};
        case EvictHead => head := None;
        case BindHead(state) => head := Some(state);
        case BindRow(row) => rows := rows + {row};
        case BindFanin(join, resolutions) => fanins := fanins[join := resolutions];
      }
      budget := budget - 1;
      return true;
    }

    method PerformBoth(first: Write, second: Write) returns (alive: bool)
      modifies this
      ensures Did(old(State()), old(budget), State(), budget, [first, second], alive)
    {
      alive := Perform(first);
      assert [first, second] == [first] + [second];
      if !alive {
        DidStop(old(State()), old(budget), State(), budget, [first], [second]);
        return;
      }
      ghost var m1, b1 := State(), budget;
      alive := Perform(second);
      DidThen(old(State()), old(budget), m1, b1, State(), budget, [first], [second], alive);
    }

    /** `bind_work_state_head`. */
    method PersistWorkState(state: WorkState) returns (alive: bool)
      modifies this
      ensures Did(old(State()), old(budget), State(), budget, Rebind(state), alive)
    {
      alive := PerformBoth(EvictHead, BindHead(state));
    }

    /** `_load_work_state`. */
    method LoadWorkState(input: Input) returns (state: WorkState)
      ensures state == Load(State(), input)
    {
      match input {
        case StateRef(given) => return given;
        case WorkInput(stage) =>
          if head.Some? && Accepts(head.value, stage) { return head.value; }
          var at: nat := 0;
          var refs: seq<StepResult> := [];
          while at in steps
            invariant Scan(steps, stage, 0, []) == Scan(steps, stage, at, refs)
            decreases KeysFrom(steps, at)
          {
            refs := refs + [steps[at]];
            if !steps[at].continues { return WorkState(stage, at + 1, refs, true, None, None, []); }
            assert at in KeysFrom(steps, at) && at !in KeysFrom(steps, at + 1);
            at := at + 1;
          }
          return WorkState(stage, at, refs, false, None, None, []);
      }
    }

    /** `_bound_unresolved_deferral_step_index`. */
    method BoundUnresolvedStep(state: WorkState) returns (found: Option<nat>)
      ensures found == UnresolvedStep(State(), state)
    {
      var candidates := if state.stepIndex > 0 then [state.stepIndex, state.stepIndex - 1] else [state.stepIndex];
      var i := 0;
      while i < |candidates|
        invariant i <= |candidates|
        invariant forall j :: 0 <= j < i ==> !Unresolved(State(), candidates[j])
      {
        if candidates[i] in steps {
          var result := steps[candidates[i]];
          if result.continues && result.resolved == [] && candidates[i] in deferred && deferred[candidates[i]] != [] {
            assert i > 0 ==> !Unresolved(State(), candidates[0]);
            return Some(candidates[i]);
          }
        }
        i := i + 1;
      }
      assert !Unresolved(State(), candidates[0]) && !Unresolved(State(), candidates[|candidates| - 1]);
      return None;
    }

    /** The tail of a deferral, shared by a fresh deferral and by recovery. */
    method Defer(rt: Runtime, stage: nat, at: nat, chain: seq<StepResult>, intents: seq<Intent>, result: StepResult)
      returns (alive: bool, outcome: Outcome)
      requires intents != []
      modifies this
      ensures var plan := DeferralPlan(rt, old(State()), stage, at, chain, intents, result);
              && Did(old(State()), old(budget), State(), budget, plan.writes, alive)
              && (alive ==> outcome == plan.outcome)
    {
      outcome := Failed(DeferredConflict);
      if at in deferred && deferred[at] != intents { return true, outcome; }
      ghost var m0, b0 := State(), budget;
      var state := WorkState(stage, at, Take(chain, at), false, None, None, []);
      var parked := Parked(rt.engine, state, intents, stage, result);
      var first, second, third := [BindDeferred(at, intents)], Rebind(parked), [EvictStep(at), EvictDeferred(at)];
      alive := Perform(first[0]);
      if !AllKnown(rt.engine, intents) { return alive, Failed(UnknownTask); }
      if !alive {
        DidStop(m0, b0, State(), budget, first, second);
        DidStop(m0, b0, State(), budget, first + second, third);
        return;
      }
      ghost var m1, b1 := State(), budget;
      alive := PersistWorkState(parked);
      DidThen(m0, b0, m1, b1, State(), budget, first, second, alive);
      if !alive {
        DidStop(m0, b0, State(), budget, first + second, third);
        return;
      }
      ghost var m2, b2 := State(), budget;
      var successors := EmitDeferredSuccessors(rt.engine, intents, stage, parked);
      alive := PerformBoth(EvictStep(at), EvictDeferred(at));
      DidThen(m0, b0, m2, b2, State(), budget, first + second, third, alive);
      outcome := Completed(parked, successors);
    }

    /** `_platform_deferred_resume` and the eviction after it. */
    method Resume(rt: Runtime, state: WorkState) returns (alive: bool, outcome: Outcome)
      modifies this
      ensures var plan := ResumePlan(rt, state);
              && Did(old(State()), old(budget), State(), budget, plan.writes, alive)
              && (alive ==> outcome == plan.outcome)
    {
      if state.origin.None? { return true, Failed(NoOrigin); }
      if state.intents == [] { return true, Failed(NoIntents); }
      ghost var m0, b0 := State(), budget;
      alive := PersistWorkState(state);
      if !AllKnown(rt.engine, state.intents) { return alive, Failed(UnknownTask); }
      outcome := Failed(UnknownTask);
      if !alive {
        DidStop(m0, b0, State(), budget, Rebind(state), [EvictDeferred(state.stepIndex)]);
        return;
      }
      var successors := EmitDeferredSuccessors(rt.engine, state.intents, state.origin.value, state);
      ghost var m1, b1 := State(), budget;
      alive := Perform(EvictDeferred(state.stepIndex));
      DidThen(m0, b0, m1, b1, State(), budget, Rebind(state), [EvictDeferred(state.stepIndex)], alive);
      outcome := Completed(state, successors);
    }

    /** `run_step`, as far as it touches the member's bindings. */
    method RunOptimizer(rt: Runtime, state: WorkState) returns (alive: bool, run: StepRun)
      modifies this
      ensures Did(old(State()), old(budget), State(), budget, RunStep(rt, old(State()), state).writes, alive)
      ensures alive ==> run == RunStep(rt, old(State()), state)
    {
      var request := RequestOf(rt, state);
      var at := state.stepIndex;
      if at > 0 {
        if state.steps == [] || at - 1 !in steps { return true, StepError([], NoPriorResult); }
        if steps[at - 1] != state.steps[|state.steps| - 1] { return true, StepError([], PriorMismatch); }
        if !steps[at - 1].continues { return true, StepError([], PriorNotContinuing); }
      }
      if at in steps {
        return true, if steps[at].request == request then StepRun([], steps[at], []) else StepError([], StepConflict);
      }
      var output := rt.adapter(request);
      var result := StepResult(request, output.Defer? || output.continues, [], output.evidence);
      var intents := if output.Defer? then output.intents else [];
      if intents == [] {
        alive := Perform(BindStep(at, result));
        run := StepRun([BindStep(at, result)], result, []);
      } else if at in deferred && deferred[at] != intents {
        return true, StepError([], DeferredConflict);
      } else {
        alive := PerformBoth(BindDeferred(at, intents), BindStep(at, result));
        run := StepRun([BindDeferred(at, intents), BindStep(at, result)], result, intents);
      }
    }

    /** What `execute_optim_step_sync` records once the optimizer has run. */
    method Record(rt: Runtime, state: WorkState, result: StepResult, intents: seq<Intent>) returns (alive: bool, outcome: Outcome)
      modifies this
      ensures var plan := RecordPlan(rt, old(State()), state, result, intents);
              && Did(old(State()), old(budget), State(), budget, plan.writes, alive)
              && (alive ==> outcome == plan.outcome)
    {
      if result.resolved == [] && intents != [] && result.continues {
        alive, outcome := Defer(rt, state.stage, state.stepIndex, state.steps, intents, result);
        return;
      }
      ghost var m0, b0 := State(), budget;
      var next := Advanced(state, result);
      ghost var bind := [BindStep(state.stepIndex, result)];
      outcome := Completed(next, if next.terminal then [] else [StepStage(next.stage, next)]);
      alive := Perform(BindStep(state.stepIndex, result));
      if !alive {
        DidStop(m0, b0, State(), budget, bind, Rebind(next));
        return;
      }
      ghost var m1, b1 := State(), budget;
      alive := PersistWorkState(next);
      DidThen(m0, b0, m1, b1, State(), budget, bind, Rebind(next), alive);
    }

    /** The part of `execute_optim_step_sync` that runs the optimizer. */
    method RunAndRecord(rt: Runtime, state: WorkState) returns (alive: bool, outcome: Outcome)
      modifies this
      ensures var plan := FreshPlan(rt, old(State()), state);
              && Did(old(State()), old(budget), State(), budget, plan.writes, alive)
              && (alive ==> outcome == plan.outcome)
    {
      ghost var m0, b0 := State(), budget;
      ghost var ran := RunStep(rt, m0, state);
      var run;
      alive, run := RunOptimizer(rt, state);
      outcome := Failed(StepConflict);
      if !alive {
        DidStop(m0, b0, State(), budget, ran.writes, FreshPlan(rt, m0, state).writes[|ran.writes|..]);
        assert ran.writes + FreshPlan(rt, m0, state).writes[|ran.writes|..] == FreshPlan(rt, m0, state).writes;
        return;
      }
      assert ran.writes[..|ran.writes|] == ran.writes;
      if run.StepError? { return true, Failed(run.why); }
      DeferralKept(m0, state, run);
      var intents := run.deferred;
      if run.result.resolved == [] && run.result.continues && intents == [] {
        intents := if state.intents != [] then state.intents
                   else if state.stepIndex in deferred then deferred[state.stepIndex] else [];
      }
      ghost var m1, b1 := State(), budget;
      alive, outcome := Record(rt, state, run.result, intents);
      DidThen(m0, b0, m1, b1, State(), budget, run.writes, RecordPlan(rt, m1, state, run.result, intents).writes, alive);
    }

    lemma DeferralKept(m: Member, state: WorkState, run: StepRun)
      requires run.StepRun? && (run.deferred == [] ==> run.writes == [] || run.writes == [BindStep(state.stepIndex, run.result)])
      ensures run.deferred == [] ==> ApplyAll(m, run.writes).deferred == m.deferred
    {
      assert [BindStep(state.stepIndex, run.result)][..0] == [];
    }

    /** `execute_optim_step_sync`. */
    method ExecuteOptimStep(rt: Runtime, input: Input, claimed: Option<nat>) returns (alive: bool, outcome: Outcome)
      modifies this
      ensures var plan := OptimPlan(rt, old(State()), input, claimed);
              && Did(old(State()), old(budget), State(), budget, plan.writes, alive)
              && (alive ==> outcome == plan.outcome)
    {
      var state := LoadWorkState(input);
      var expected := state.stage;
      if state.pending.Some? && state.origin.Some? { expected := state.origin.value; }
      if claimed.Some? && claimed.value != expected { return true, Failed(WrongStageIndex); }
      if state.terminal {
        alive := PersistWorkState(state);
        return alive, Completed(state, []);
      }
      if state.pending.Some? {
        alive, outcome := Resume(rt, state);
        return;
      }
      var unresolved := BoundUnresolvedStep(state);
      if unresolved.Some? {
        var at := unresolved.value;
        alive, outcome := Defer(rt, state.stage, at, state.steps, deferred[at], steps[at]);
        return;
      }
      alive, outcome := RunAndRecord(rt, state);
    }

    /** `execute_eval_row_sync`. */
    method ExecuteEvalRow(row: RowInput, claimed: Option<nat>) returns (alive: bool, outcome: Outcome)
      modifies this
      ensures var plan := RowPlan(old(State()), row, claimed);
              && Did(old(State()), old(budget), State(), budget, plan.writes, alive)
              && (alive ==> outcome == plan.outcome)
    {
      if row in rows { return true, Completed(row.state, []); }
      var expected := row.origin + 1 + row.ordinal;
      if claimed.Some? && claimed.value != expected { return true, Failed(WrongStageIndex); }
      alive := Perform(BindRow(row));
      outcome := Completed(row.state, []);
    }

    /** `_load_row_records_from_input_refs`: every row must be bound. */
    method RowsBound(wanted: seq<RowInput>) returns (all: bool)
      ensures all <==> forall row :: row in wanted ==> row in rows
    {
      var i := 0;
      while i < |wanted|
        invariant i <= |wanted|
        invariant forall j :: 0 <= j < i ==> wanted[j] in rows
      {
        if wanted[i] !in rows { return false; }
        i := i + 1;
      }
      return true;
    }

    /** `_finalize_deferred_step` and the end of `_complete_fanin_handoff`, after the fan-in is bound. */
    method Finalize(rt: Runtime, join: Join, resolutions: seq<nat>) returns (alive: bool, outcome: Outcome)
      requires join.state.pending.Some?
      modifies this
      ensures var plan := FinalizePlan(rt, old(State()), join, resolutions);
              && Did(old(State()), old(budget), State(), budget, plan.writes, alive)
              && (alive ==> outcome == plan.outcome)
    {
      var state := join.state;
      ghost var m0, b0 := State(), budget;
      if rt.gepa {
        if head.Some? && HeadIsLater(head.value, state.stepIndex, join.origin, state.stage) { return true, Merged(join, []); }
        var next := Resumed(State(), join);
        alive := Perform(EvictDeferred(state.stepIndex));
        outcome := Merged(join, StepSuccessor(next));
        if !alive {
          DidStop(m0, b0, State(), budget, [EvictDeferred(state.stepIndex)], Rebind(next));
          return;
        }
        ghost var m1, b1 := State(), budget;
        alive := PersistWorkState(next);
        DidThen(m0, b0, m1, b1, State(), budget, [EvictDeferred(state.stepIndex)], Rebind(next), alive);
        return;
      }
      var merged := MergedResult(join, resolutions);
      var bound := steps;
      if state.stepIndex in bound && bound[state.stepIndex] != merged {
        alive := Perform(EvictDeferred(state.stepIndex));
        return alive, Failed(StepConflict);
      }
      var next := MergedState(join, merged);
      alive := PerformBoth(EvictDeferred(state.stepIndex), BindStep(state.stepIndex, merged));
      outcome := Merged(join, StepSuccessor(next));
      if !alive {
        DidStop(m0, b0, State(), budget, [EvictDeferred(state.stepIndex), BindStep(state.stepIndex, merged)], Rebind(next));
        return;
      }
      ghost var m1, b1 := State(), budget;
      alive := PersistWorkState(next);
      DidThen(m0, b0, m1, b1, State(), budget,
              [EvictDeferred(state.stepIndex), BindStep(state.stepIndex, merged)], Rebind(next), alive);
    }

    /** `execute_eval_fanin_sync`. */
    method ExecuteEvalFanin(rt: Runtime, join: Join, found: seq<nat>, claimed: Option<nat>) returns (alive: bool, outcome: Outcome)
      modifies this
      ensures var plan := FaninPlan(rt, old(State()), join, found, claimed);
              && Did(old(State()), old(budget), State(), budget, plan.writes, alive)
              && (alive ==> outcome == plan.outcome)
    {
      var state := join.state;
      if claimed.Some? && claimed.value != state.stage { return true, Failed(WrongStageIndex); }
      if state.pending.None? { return true, Failed(NotPending); }
      if state.intents == [] { return true, Failed(NoIntents); }
      var bound := RowsBound(join.rows);
      if |join.rows| != RowCount(rt.engine, state.intents) || !bound { return true, Failed(RowsMissing); }
      if join.rows == [] { return true, Failed(NoRows); }
      ghost var m0, b0 := State(), budget;
      ghost var plan := FaninPlan(rt, m0, join, found, claimed);
      var resolutions := found;
      if join in fanins {
        resolutions := fanins[join];
        FaninSplits(rt, m0, join, resolutions, [], claimed, found);
        assert [] + FinalizePlan(rt, m0, join, resolutions).writes == FinalizePlan(rt, m0, join, resolutions).writes;
        alive, outcome := Finalize(rt, join, resolutions);
      } else {
        ghost var bind := [BindFanin(join, found)];
        ghost var rest := FinalizePlan(rt, m0, join, found);
        FaninSplits(rt, m0, join, found, bind, claimed, found);
        outcome := Failed(NoRows);
        alive := Perform(BindFanin(join, found));
        if !alive {
          DidStop(m0, b0, State(), budget, bind, rest.writes);
          return;
        }
        ghost var m1, b1 := State(), budget;
        assert bind[..1] == bind && bind[..0] == [];
        alive, outcome := Finalize(rt, join, found);
        DidThen(m0, b0, m1, b1, State(), budget, bind, rest.writes, alive);
      }
    }
  }

  /** The part of a fan-in after its resolutions are bound. */
  ghost function FinalizePlan(rt: Runtime, m: Member, join: Join, resolutions: seq<nat>): Plan
    requires join.state.pending.Some?
  {
    var at := join.state.stepIndex;
    if IsStale(rt, m, join) then Plan([], Merged(join, []))
    else if rt.gepa then Plan([EvictDeferred(at)] + Rebind(Resumed(m, join)), Merged(join, StepSuccessor(Resumed(m, join))))
    else
      var merged := MergedResult(join, resolutions);
      if at in m.steps && m.steps[at] != merged then Plan([EvictDeferred(at)], Failed(StepConflict))
      else Plan([EvictDeferred(at), BindStep(at, merged)] + Rebind(MergedState(join, merged)), Merged(join, StepSuccessor(MergedState(join, merged))))
  }

  lemma FaninSplits(rt: Runtime, m: Member, join: Join, resolutions: seq<nat>, bind: seq<Write>, claimed: Option<nat>, found: seq<nat>)
    requires StageAgrees(claimed, join.state.stage) && join.state.pending.Some? && join.state.intents != []
    requires |join.rows| == RowCount(rt.engine, join.state.intents) && (forall row :: row in join.rows ==> row in m.rows) && join.rows != []
    requires if join in m.fanins then bind == [] && resolutions == m.fanins[join] else bind == [BindFanin(join, found)] && resolutions == found
    ensures var plan, rest := FaninPlan(rt, m, join, found, claimed), FinalizePlan(rt, m, join, resolutions);
            plan.writes == bind + rest.writes && plan.outcome == rest.outcome
    ensures var m1 := ApplyAll(m, bind);
            FinalizePlan(rt, m1, join, resolutions) == FinalizePlan(rt, m, join, resolutions)
  {
    assert [BindFanin(join, found)][..0] == [];
  }
}
