/** The harness that steps and terminalizes one bound optimization run over the shared bindings. */
module StepHarness {
  import opened StepChain

  // ---------------------------------------------------------------- the harness

  class OptimHarness {
    var runs: map<string, Run>
    var steps: map<(string, nat), StepResult>
    var terminals: map<string, OptimResult>
    var boundRun: Option<Run>

    constructor ()
      ensures State() == Store(map[], map[], map[]) && boundRun == None
    {
      runs, steps, terminals, boundRun := map[], map[], map[], None;
    }

    function State(): Store
      reads this
    {
      Store(runs, steps, terminals)
    }

    /** `bind_run`. */
    method Bind(run: Run) returns (result: Result<Run>)
      modifies this
      ensures State() == BindRun(old(State()), run).0 && result == BindRun(old(State()), run).1
      ensures boundRun == if result.Ok? then Some(run) else old(boundRun)
      ensures result.Ok? <==> run.id !in old(runs) || old(runs)[run.id] == run
      ensures runs == if result.Ok? then old(runs)[run.id := run] else old(runs)
      ensures steps == old(steps) && terminals == old(terminals)
    {
      if run.id in runs {
        if runs[run.id] != run { return Err(RunConflict); }
      } else {
        runs := runs[run.id := run];
      }
      boundRun := Some(run);
      return Ok(run);
    }

    /** `_validate_prior_binding`. */
    method ValidatePrior(request: Request) returns (result: Result<()>)
      ensures result == CheckPrior(State(), request)
    {
      if request.index == 0 {
        if request.prior.Some? || request.priorState.Some? || request.priorHistory.Some? { return Err(BadRequest); }
        return Ok(());
      }
      var key := (request.run.id, request.index - 1);
      if key !in steps { return Err(NoPriorResult); }
      var actual := steps[key];
      if request.prior != Some(actual) { return Err(PriorMismatch); }
      if actual.request.run != request.run || actual.request.index != request.index - 1 { return Err(PriorMismatch); }
      if !actual.status.Continue? { return Err(PriorTerminal); }
      if request.budget != actual.budget || request.priorState != actual.state || request.priorHistory != actual.history {
        return Err(PriorNotCarried);
      }
      return Ok(());
    }

    /** `run_step`, given what the adapter would return. */
    method RunStep(request: Request, output: Output) returns (result: Result<StepResult>)
      modifies this
      ensures boundRun == old(boundRun)
      ensures if old(boundRun) != Some(request.run) then result == Err(RunNotBound) && State() == old(State())
              else
                var prepared := Prepare(old(State()), request, output);
                if prepared.Err? then
                  && State() == old(State()) && result.Err?
                  && (result == prepared || {result.why, prepared.why} <= {UndeclaredBudget, BudgetExceeded})
                else result == prepared && State() == Commit(old(State()), prepared.value).0
      // A result that is returned is bound under the run and index of its request.
      ensures result.Ok? ==>
                var key := (request.run.id, request.index);
                steps == old(steps)[key := result.value] && result.value.request == request
                && (key in old(steps) ==> old(steps)[key] == result.value)
      ensures runs == old(runs) && terminals == old(terminals)
    {
      if boundRun != Some(request.run) { return Err(RunNotBound); }
      if request.run.id !in runs || runs[request.run.id] != request.run { return Err(RunNotBound); }
      if !RequestValid(request) { return Err(BadRequest); }
      var prior := ValidatePrior(request);
      if prior.Err? { return Err(prior.why); }
      var key := (request.run.id, request.index);
      if key in steps {
        if steps[key].request != request { return Err(StepConflict); }
        return Ok(steps[key]);
      }
      if !OutputValid(output) { return Err(BadOutput); }
      if !KeepsContract(request, output) { return Err(ContractViolated); }
      var budget := Debit(request.budget, output.delta);
      if budget.Err? { return Err(budget.why); }
      var made := StepResult(request, output.proposed, output.accepted, output.status, output.failure, output.seedRetained,
                             output.retained, output.delta, budget.value, output.state, output.history);
      if !ResultValid(made) { return Err(BadResult); }
      steps := steps[key := made];
      return Ok(made);
    }

    /** `_assemble_terminal`: the loop over the supplied results. */
    method AssembleTerminal(run: Run, supplied: seq<StepResult>) returns (result: Result<OptimResult>)
      requires supplied != []
      ensures result.Ok? <==> Assemble(State(), run, supplied).Ok?
      ensures result.Ok? ==> result == Assemble(State(), run, supplied)
    {
      var i := 0;
      while i < |supplied|
        invariant i <= |supplied|
        invariant forall j :: 0 <= j < i ==> BoundAt(State(), run, supplied, j)
        invariant forall j :: 0 <= j < i && j < |supplied| - 1 ==> supplied[j].status.Continue?
      {
        assert BoundAt(State(), run, supplied, i) ==> (run.id, i) in steps && steps[(run.id, i)] == supplied[i];
        if (run.id, i) !in steps || steps[(run.id, i)] != supplied[i] { return Err(NotTheBoundSteps); }
        if supplied[i].request.run.id != run.id || supplied[i].request.index != i { return Err(NotTheBoundSteps); }
        if supplied[i].request.run != run { return Err(NotTheBoundSteps); }
        if i < |supplied| - 1 && !supplied[i].status.Continue? { return Err(StepsAfterTerminal); }
        i := i + 1;
      }
      if (run.id, |supplied|) in steps { return Err(LaterStepBound); }
      var last := supplied[|supplied| - 1];
      if last.status.Continue? { return Err(StillContinuing); }
      var proposals := if last.status.Failed? then [] else last.accepted;
      return Ok(OptimResult(run, proposals, supplied, last.failure, last.seedRetained));
    }

    /** `terminalize`. */
    method Terminalize(run: Run, supplied: seq<StepResult>) returns (result: Result<OptimResult>)
      modifies this
      ensures boundRun == old(boundRun)
      ensures if old(boundRun) != Some(run) then result == Err(RunNotBound) && State() == old(State())
              else
                var assembled := Assemble(old(State()), run, supplied);
                if assembled.Err? then result.Err? && State() == old(State())
                else (State(), result) == CommitTerminal(old(State()), assembled.value)
      ensures result.Ok? ==>
                && terminals == old(terminals)[run.id := result.value]
                && (run.id in old(terminals) ==> old(terminals)[run.id] == result.value)
      ensures runs == old(runs) && steps == old(steps)
    {
      if boundRun != Some(run) { return Err(RunNotBound); }
      if supplied == [] { return Err(NoSteps); }
      result := AssembleTerminal(run, supplied);
      if result.Err? { return; }
      var assembled := result.value;
      if run.id in terminals {
        if terminals[run.id] != assembled { return Err(TerminalConflict); }
        return Ok(terminals[run.id]);
      }
      terminals := terminals[run.id := assembled];
    }
  }
}
