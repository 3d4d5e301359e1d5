/** The durable chain of step results of an optimization run, and the result assembled from it.  Records are
    cited by exact content, so a reference is the record itself. */
module StepChain {

  datatype Option<+T> = None | Some(value: T)

  datatype Result<+T> = Ok(value: T) | Err(why: Failure)

  datatype Failure =
    | RunConflict | RunNotBound | BadRequest | NoPriorResult | PriorMismatch | PriorTerminal | PriorNotCarried
    | StepConflict | BadOutput | ContractViolated | UndeclaredBudget | BudgetExceeded | BadResult
    | NoSteps | NotTheBoundSteps | StepsAfterTerminal | LaterStepBound | StillContinuing | TerminalConflict

  // ---------------------------------------------------------------- output contracts

  datatype Status = Continue | Complete | Failed

  datatype Contract = Contract(returned: nat, terminal: Option<nat>, floor: Option<nat>, distinctBases: bool) {
    /** `accepted_count_for`. */
    function CountFor(status: Status): nat {
      if status.Failed? then 0
      else if status.Complete? && terminal.Some? then terminal.value
      else returned
    }

    /** `admits_accepted_count`. */
    predicate Admits(status: Status, count: nat) {
      if status.Continue? && floor.Some? then floor.value <= count <= CountFor(status)
      else count == CountFor(status)
    }

    predicate Honors(run: Contract) {
      CountFor(Complete) == run.CountFor(Complete) && distinctBases == run.distinctBases
    }
  }

  // ---------------------------------------------------------------- budgets

  datatype Budget = Budget(consumed: map<string, nat>, remaining: map<string, nat>)

  function Amount(values: map<string, nat>, unit: string): nat {
    if unit in values then values[unit] else 0
  }

  /** What a budget holds under one unit, spent or not. */
  function Total(budget: Budget, unit: string): nat {
    Amount(budget.consumed, unit) + Amount(budget.remaining, unit)
  }

  predicate Affordable(budget: Budget, delta: map<string, nat>) {
    forall unit :: unit in delta ==> unit in budget.remaining && delta[unit] <= budget.remaining[unit]
  }

  function Debited(budget: Budget, delta: map<string, nat>): Budget
    requires Affordable(budget, delta)
  {
    Budget(map unit | unit in budget.consumed.Keys + delta.Keys :: Amount(budget.consumed, unit) + Amount(delta, unit),
           map unit | unit in budget.remaining :: budget.remaining[unit] - Amount(delta, unit))
  }

  /** `BudgetState.debit`: the loop over the delta. */
  method Debit(budget: Budget, delta: map<string, nat>) returns (result: Result<Budget>)
    ensures result.Ok? <==> Affordable(budget, delta)
    ensures result.Ok? ==> result.value == Debited(budget, delta)
    ensures result.Err? ==> result.why in {UndeclaredBudget, BudgetExceeded}
  {
    result := Ok(budget);
    var todo := delta.Keys;
    DebitNone(budget, delta);
    while todo != {}
      invariant todo <= delta.Keys && result.Ok? && Progress(budget, delta, todo, result.value)
      decreases todo
    {
      var unit :| unit in todo;
      result := DebitUnit(budget, delta, todo, result.value, unit);
      if result.Err? { return; }
      todo := todo - {unit};
    }
    DebitDone(budget, delta, result.value);
  }

  /** The body of the loop: one label of the delta. */
  method DebitUnit(ghost budget: Budget, delta: map<string, nat>, ghost todo: set<string>, current: Budget, unit: string)
    returns (result: Result<Budget>)
    requires unit in todo && todo <= delta.Keys && Progress(budget, delta, todo, current)
    ensures result.Ok? ==> Progress(budget, delta, todo - {unit}, result.value)
    ensures result.Err? ==> !Affordable(budget, delta) && result.why in {UndeclaredBudget, BudgetExceeded}
  {
    var amount := delta[unit];
    DebitRefused(budget, delta, todo, current, unit);
    if unit !in current.remaining { return Err(UndeclaredBudget); }
    if amount > current.remaining[unit] { return Err(BudgetExceeded); }
    DebitStep(budget, delta, todo, current, unit);
    return Ok(Budget(current.consumed[unit := Amount(current.consumed, unit) + amount],
                     current.remaining[unit := current.remaining[unit] - amount]));
  }

  lemma DebitDone(budget: Budget, delta: map<string, nat>, current: Budget)
    requires Progress(budget, delta, {}, current)
    ensures Affordable(budget, delta) && current == Debited(budget, delta)
  {
    assert Without(delta, {}) == delta;
  }

  /** The budget after the amounts outside `todo` are debited. */
  ghost predicate Progress(budget: Budget, delta: map<string, nat>, todo: set<string>, current: Budget) {
    Affordable(budget, Without(delta, todo)) && current == Debited(budget, Without(delta, todo))
  }

  lemma DebitRefused(budget: Budget, delta: map<string, nat>, todo: set<string>, current: Budget, unit: string)
    requires unit in todo && todo <= delta.Keys && Progress(budget, delta, todo, current)
    ensures unit in current.remaining <==> unit in budget.remaining
    ensures unit in budget.remaining ==> current.remaining[unit] == budget.remaining[unit]
    ensures unit !in budget.remaining || delta[unit] > budget.remaining[unit] ==> !Affordable(budget, delta)
  {
    Undebited(budget, Without(delta, todo), unit);
  }

  lemma WithoutOne(delta: map<string, nat>, todo: set<string>, unit: string)
    requires unit in todo && todo <= delta.Keys
    ensures Without(delta, todo - {unit}) == Without(delta, todo)[unit := delta[unit]]
  {
  }

  lemma DebitStep(budget: Budget, delta: map<string, nat>, todo: set<string>, current: Budget, unit: string)
    requires unit in todo && todo <= delta.Keys && Progress(budget, delta, todo, current)
    requires unit in budget.remaining && unit in current.remaining
    requires delta[unit] <= budget.remaining[unit] == current.remaining[unit]
    ensures Progress(budget, delta, todo - {unit},
                     Budget(current.consumed[unit := Amount(current.consumed, unit) + delta[unit]],
                            current.remaining[unit := current.remaining[unit] - delta[unit]]))
  {
    WithoutOne(delta, todo, unit);
    DebitOne(budget, Without(delta, todo), unit, delta[unit]);
  }

  function Without(delta: map<string, nat>, todo: set<string>): map<string, nat> {
    map unit | unit in delta && unit !in todo :: delta[unit]
  }

  lemma DebitNone(budget: Budget, delta: map<string, nat>)
    ensures Progress(budget, delta, delta.Keys, budget)
  {
    assert Without(delta, delta.Keys) == map[];
    assert Debited(budget, map[]).consumed == budget.consumed;
    assert Debited(budget, map[]).remaining == budget.remaining;
  }

  lemma Undebited(budget: Budget, done: map<string, nat>, unit: string)
    requires Affordable(budget, done) && unit !in done
    ensures unit in Debited(budget, done).remaining <==> unit in budget.remaining
    ensures unit in budget.remaining ==> Debited(budget, done).remaining[unit] == budget.remaining[unit]
  {
  }

  lemma DebitOne(budget: Budget, done: map<string, nat>, unit: string, amount: nat)
    requires Affordable(budget, done) && unit !in done
    requires unit in budget.remaining && amount <= budget.remaining[unit]
    ensures var before, after := Debited(budget, done), Debited(budget, done[unit := amount]);
            after == Budget(before.consumed[unit := Amount(before.consumed, unit) + amount],
                            before.remaining[unit := budget.remaining[unit] - amount])
  {
    DebitOneConsumed(budget, done, unit, amount);
    DebitOneRemaining(budget, done, unit, amount);
  }

  lemma DebitOneConsumed(budget: Budget, done: map<string, nat>, unit: string, amount: nat)
    requires Affordable(budget, done) && unit !in done
    requires unit in budget.remaining && amount <= budget.remaining[unit]
    ensures Debited(budget, done[unit := amount]).consumed ==
              Debited(budget, done).consumed[unit := Amount(Debited(budget, done).consumed, unit) + amount]
  {
  }

  lemma DebitOneRemaining(budget: Budget, done: map<string, nat>, unit: string, amount: nat)
    requires Affordable(budget, done) && unit !in done
    requires unit in budget.remaining && amount <= budget.remaining[unit]
    ensures Debited(budget, done[unit := amount]).remaining ==
              Debited(budget, done).remaining[unit := budget.remaining[unit] - amount]
  {
  }

  /** Debiting moves amounts from remaining to consumed and loses none. */
  lemma DebitConserves(budget: Budget, delta: map<string, nat>, unit: string)
    requires Affordable(budget, delta)
    ensures Total(Debited(budget, delta), unit) == Total(budget, unit)
    ensures Amount(Debited(budget, delta).consumed, unit) == Amount(budget.consumed, unit) + Amount(delta, unit)
  {
  }

  // ---------------------------------------------------------------- records

  datatype Candidate = Candidate(base: nat, text: nat)

  datatype Run = Run(id: string, pure: bool, contract: Contract, seed: Option<Candidate>, config: nat)

  datatype Request = Request(
    run: Run, index: nat, prior: Option<StepResult>, priorState: Option<nat>, priorHistory: Option<nat>,
    candidates: seq<Candidate>, budget: Budget, contract: Contract)

  datatype StepResult = StepResult(
    request: Request, proposed: seq<Candidate>, accepted: seq<Candidate>, status: Status, failure: Option<nat>,
    seedRetained: bool, retained: Option<Candidate>, delta: map<string, nat>, budget: Budget,
    state: Option<nat>, history: Option<nat>)

  /** What an adapter returns. */
  datatype Output = Output(
    proposed: seq<Candidate>, accepted: seq<Candidate>, status: Status, failure: Option<nat>,
    seedRetained: bool, retained: Option<Candidate>, delta: map<string, nat>, state: Option<nat>, history: Option<nat>)

  datatype OptimResult = OptimResult(
    run: Run, proposals: seq<Candidate>, steps: seq<StepResult>, failure: Option<nat>, seedRetained: bool)

  predicate RequestValid(request: Request) {
    && (request.index == 0 ==> request.prior.None? && request.priorState.None? && request.priorHistory.None?)
    && (request.index > 0 ==> request.prior.Some?)
  }

  predicate OutputValid(output: Output) {
    && (output.status.Failed? <==> output.failure.Some?)
    && (output.status.Failed? ==> output.accepted == [])
    && (output.seedRetained ==> output.status.Complete? && output.accepted == [] && output.retained.Some?)
    && (!output.seedRetained ==> output.retained.None?)
  }

  predicate DistinctBases(candidates: seq<Candidate>) {
    forall i, j :: 0 <= i < j < |candidates| ==> candidates[i].base != candidates[j].base
  }

  /** `_validate_output`. */
  predicate KeepsContract(request: Request, output: Output) {
    && (output.seedRetained ==> request.contract.terminal.Some? && request.run.seed.Some? && output.retained == request.run.seed)
    && (if output.seedRetained then output.accepted == [] else request.contract.Admits(output.status, |output.accepted|))
    && (request.contract.distinctBases ==> DistinctBases(output.proposed))
    && multiset(output.accepted) <= multiset(output.proposed)
    && (output.status.Complete? ==> request.contract.Honors(request.run.contract))
  }

  /** `OptimStepResult._validate`, without its evidence checks. */
  predicate ResultValid(r: StepResult) {
    var request := r.request;
    && (request.run.pure ==>
          && multiset(r.proposed) == multiset(request.candidates)
          && (!r.status.Failed? ==> multiset(r.accepted) == multiset(request.candidates)))
    && (r.status.Failed? <==> r.failure.Some?)
    && (r.status.Failed? ==> r.accepted == [])
    && (if r.seedRetained then
          && r.status.Complete? && r.accepted == [] && request.contract.terminal.Some?
          && request.run.seed.Some? && r.retained == request.run.seed
        else r.retained.None?)
    && (!r.status.Failed? ==>
          && (if r.seedRetained then r.accepted == [] else request.contract.Admits(r.status, |r.accepted|))
          && (request.contract.distinctBases ==> DistinctBases(r.proposed)))
    && multiset(r.accepted) <= multiset(r.proposed)
    && (r.status.Complete? ==> request.contract.Honors(request.run.contract))
    && Affordable(request.budget, r.delta) && r.budget == Debited(request.budget, r.delta)
  }

  /** `OptimResult._validate`. */
  predicate OptimResultValid(o: OptimResult) {
    && o.steps != []
    && (forall i :: 0 <= i < |o.steps| ==>
          && o.steps[i].request.index == i && o.steps[i].request.run == o.run
          && (i < |o.steps| - 1 ==> o.steps[i].status.Continue?))
    && (forall i :: 0 <= i < |o.steps| - 1 ==> Cites(o.steps[i + 1].request, o.steps[i]))
    && var last := o.steps[|o.steps| - 1];
       && !last.status.Continue?
       && o.failure == last.failure
       && o.seedRetained == last.seedRetained
       && (last.status.Failed? ==> o.proposals == [])
       && (last.status.Complete? ==>
             && o.proposals == last.accepted
             && |o.proposals| == if o.seedRetained then 0 else o.run.contract.CountFor(Complete))
  }

  /** A request carries everything on from the result before it. */
  predicate Cites(request: Request, prior: StepResult) {
    && request.prior == Some(prior) && request.priorState == prior.state && request.priorHistory == prior.history
    && request.budget == prior.budget
  }

  // ---------------------------------------------------------------- the store and the steps

  /** Write-once bindings; step results are bound under run id and index. */
  datatype Store = Store(runs: map<string, Run>, steps: map<(string, nat), StepResult>, terminals: map<string, OptimResult>)

  /** `_validate_prior_binding`. */
  function CheckPrior(store: Store, request: Request): Result<()> {
    var run, i := request.run, request.index;
    if i == 0 then
      if request.prior.None? && request.priorState.None? && request.priorHistory.None? then Ok(()) else Err(BadRequest)
    else if (run.id, i - 1) !in store.steps then Err(NoPriorResult)
    else
      var prior := store.steps[(run.id, i - 1)];
      if request.prior != Some(prior) || prior.request.run != run || prior.request.index != i - 1 then Err(PriorMismatch)
      else if !prior.status.Continue? then Err(PriorTerminal)
      else if !Cites(request, prior) then Err(PriorNotCarried)
      else Ok(())
  }

  function MakeResult(request: Request, output: Output): StepResult
    requires Affordable(request.budget, output.delta)
  {
    StepResult(request, output.proposed, output.accepted, output.status, output.failure, output.seedRetained,
               output.retained, output.delta, Debited(request.budget, output.delta), output.state, output.history)
  }

  /** Everything `run_step` does before it binds: the checks, and the result it is about to bind. */
  function Prepare(store: Store, request: Request, output: Output): Result<StepResult> {
    if !(request.run.id in store.runs && store.runs[request.run.id] == request.run) then Err(RunNotBound)
    else if !RequestValid(request) then Err(BadRequest)
    else
      var prior := CheckPrior(store, request);
      if prior.Err? then Err(prior.why)
      else if (request.run.id, request.index) in store.steps then
        if store.steps[(request.run.id, request.index)].request == request
        then Ok(store.steps[(request.run.id, request.index)]) else Err(StepConflict)
      else if !OutputValid(output) then Err(BadOutput)
      else if !KeepsContract(request, output) then Err(ContractViolated)
      else if !Affordable(request.budget, output.delta) then Err(BudgetExceeded)
      else
        var result := MakeResult(request, output);
        if ResultValid(result) then Ok(result) else Err(BadResult)
  }

  /** Binding a prepared result. */
  function Commit(store: Store, result: StepResult): (Store, Result<StepResult>) {
    var key := (result.request.run.id, result.request.index);
    if key in store.steps then
      (store, if store.steps[key] == result then Ok(result) else Err(StepConflict))
    else (store.(steps := store.steps[key := result]), Ok(result))
  }

  /** `bind_run`. */
  function BindRun(store: Store, run: Run): (Store, Result<Run>) {
    if run.id in store.runs then (store, if store.runs[run.id] == run then Ok(run) else Err(RunConflict))
    else (store.(runs := store.runs[run.id := run]), Ok(run))
  }

  predicate BoundAt(store: Store, run: Run, steps: seq<StepResult>, i: nat)
    requires i < |steps|
  {
    && (run.id, i) in store.steps && store.steps[(run.id, i)] == steps[i]
    && steps[i].request.run == run && steps[i].request.index == i
  }

  /** `_assemble_terminal`. */
  function Assemble(store: Store, run: Run, steps: seq<StepResult>): Result<OptimResult> {
    if steps == [] then Err(NoSteps)
    else if exists i :: 0 <= i < |steps| && !BoundAt(store, run, steps, i) then Err(NotTheBoundSteps)
    else if exists i :: 0 <= i < |steps| - 1 && !steps[i].status.Continue? then Err(StepsAfterTerminal)
    else if (run.id, |steps|) in store.steps then Err(LaterStepBound)
    else
      var last := steps[|steps| - 1];
      if last.status.Continue? then Err(StillContinuing)
      else Ok(OptimResult(run, if last.status.Failed? then [] else last.accepted, steps, last.failure, last.seedRetained))
  }

  function CommitTerminal(store: Store, o: OptimResult): (Store, Result<OptimResult>) {
    if o.run.id in store.terminals then (store, if store.terminals[o.run.id] == o then Ok(o) else Err(TerminalConflict))
    else (store.(terminals := store.terminals[o.run.id := o]), Ok(o))
  }

  // ---------------------------------------------------------------- interleaved harnesses

  /** Any number of harnesses share the store.  Results that passed their checks but are not bound yet are in
      flight, and so are assembled terminal results. */
  datatype World = World(store: Store, inFlight: set<StepResult>, assembled: set<OptimResult>)

  datatype Event =
    | Opening(run: Run)
    | Preparing(request: Request, output: Output)
    | Committing(result: StepResult)
    | Assembling(run: Run, steps: seq<StepResult>)
    | Terminating(terminal: OptimResult)

  function Init(): World {
    World(Store(map[], map[], map[]), {}, {})
  }

  predicate Possible(w: World, e: Event) {
    match e
    case Committing(result) => result in w.inFlight
    case Terminating(terminal) => terminal in w.assembled
    case Assembling(run, _) => run.id in w.store.runs && w.store.runs[run.id] == run
    case _ => true
  }

  function Do(w: World, e: Event): World {
    match e
    case Opening(run) => w.(store := BindRun(w.store, run).0)
    case Preparing(request, output) =>
      var r := Prepare(w.store, request, output);
      if r.Ok? then w.(inFlight := w.inFlight + {r.value}) else w
    case Committing(result) => w.(store := Commit(w.store, result).0)
    case Assembling(run, steps) =>
      var r := Assemble(w.store, run, steps);
      if r.Ok? then w.(assembled := w.assembled + {r.value}) else w
    case Terminating(terminal) => w.(store := CommitTerminal(w.store, terminal).0)
  }

  ghost predicate Sound(w: World, events: seq<Event>)
    decreases events
  {
    events != [] ==> Possible(w, events[0]) && Sound(Do(w, events[0]), events[1..])
  }

  function RunAll(w: World, events: seq<Event>): World
    decreases events
  {
    if events == [] then w else RunAll(Do(w, events[0]), events[1..])
  }

  /** The run of a result is bound and its request cites the exact bound predecessor. */
  predicate Linked(store: Store, r: StepResult) {
    var run, i := r.request.run, r.request.index;
    && run.id in store.runs && store.runs[run.id] == run
    && (i == 0 ==> r.request.prior.None?)
    && (i > 0 ==>
          && (run.id, i - 1) in store.steps
          && store.steps[(run.id, i - 1)].status.Continue?
          && Cites(r.request, store.steps[(run.id, i - 1)]))
  }

  ghost predicate ChainInv(store: Store) {
    forall key :: key in store.steps ==>
      && Linked(store, store.steps[key])
      && key == (store.steps[key].request.run.id, store.steps[key].request.index)
  }

  ghost predicate StoreInv(store: Store) {
    && ChainInv(store)
    && (forall key :: key in store.steps ==> ResultValid(store.steps[key]))
  }

  /** A terminal result composes the whole bound chain of its run. */
  predicate Composes(store: Store, o: OptimResult) {
    && o.run.id in store.runs && store.runs[o.run.id] == o.run
    && Assemble(store, o.run, o.steps) == Ok(o)
  }

  ghost predicate Inv(w: World) {
    && StoreInv(w.store)
    && (forall r :: r in w.inFlight ==> Linked(w.store, r) && ResultValid(r))
    && (forall o :: o in w.assembled ==> Composes(w.store, o))
    && (forall id :: id in w.store.terminals ==> Composes(w.store, w.store.terminals[id]) && w.store.terminals[id].run.id == id)
  }

  predicate StoreGrows(a: Store, b: Store) {
    && (forall id :: id in a.runs ==> id in b.runs && b.runs[id] == a.runs[id])
    && (forall key :: key in a.steps ==> key in b.steps && b.steps[key] == a.steps[key])
    && (forall id :: id in a.terminals ==> id in b.terminals && b.terminals[id] == a.terminals[id])
  }

  lemma DoGrows(w: World, e: Event)
    ensures StoreGrows(w.store, Do(w, e).store)
  {
  }

  /** No step can be bound behind a terminal one, so a composed result stays composed. */
  lemma ComposesStays(a: Store, b: Store, o: OptimResult)
    requires StoreGrows(a, b) && ChainInv(b) && Composes(a, o)
    ensures Composes(b, o)
  {
    forall i | 0 <= i < |o.steps|
      ensures BoundAt(b, o.run, o.steps, i)
    {
      assert BoundAt(a, o.run, o.steps, i);
    }
    NothingAfterTerminal(b, o.run, o.steps);
  }

  lemma NothingAfterTerminal(store: Store, run: Run, steps: seq<StepResult>)
    requires ChainInv(store) && steps != [] && BoundAt(store, run, steps, |steps| - 1)
    requires !steps[|steps| - 1].status.Continue?
    ensures (run.id, |steps|) !in store.steps
  {
    assert (run.id, |steps|) in store.steps ==> Linked(store, store.steps[(run.id, |steps|)]);
  }

  lemma DoKeepsChainInv(w: World, e: Event)
    requires Inv(w) && Possible(w, e)
    ensures ChainInv(Do(w, e).store)
  {
    DoGrows(w, e);
    var store := Do(w, e).store;
    forall key | key in store.steps
      ensures Linked(store, store.steps[key])
    {
      assert Linked(w.store, store.steps[key]);
    }
  }

  lemma PriorLinks(store: Store, request: Request)
    requires request.run.id in store.runs && store.runs[request.run.id] == request.run
    requires RequestValid(request) && CheckPrior(store, request).Ok?
    ensures forall r: StepResult :: r.request == request ==> Linked(store, r)
  {
  }

  lemma PreparedFits(store: Store, request: Request, output: Output)
    requires StoreInv(store) && Prepare(store, request, output).Ok?
    ensures Linked(store, Prepare(store, request, output).value) && ResultValid(Prepare(store, request, output).value)
    ensures Prepare(store, request, output).value.request == request
  {
    PreparedIs(store, request, output);
    PriorLinks(store, request);
  }

  /** A prepared result is the bound one, or a valid one made from this very request. */
  lemma PreparedIs(store: Store, request: Request, output: Output)
    requires Prepare(store, request, output).Ok?
    ensures var r, key := Prepare(store, request, output).value, (request.run.id, request.index);
            && r.request == request
            && (if key in store.steps then r == store.steps[key] else ResultValid(r))
    ensures request.run.id in store.runs && store.runs[request.run.id] == request.run
    ensures RequestValid(request) && CheckPrior(store, request).Ok?
  {
  }

  lemma DoKeepsInv(w: World, e: Event)
    requires Inv(w) && Possible(w, e)
    ensures Inv(Do(w, e))
  {
    var v := Do(w, e);
    DoGrows(w, e);
    DoKeepsChainInv(w, e);
    if e.Preparing? && Prepare(w.store, e.request, e.output).Ok? {
      PreparedFits(w.store, e.request, e.output);
    }
    AllComposeStay(w, v.store);
  }

  lemma AllComposeStay(w: World, store: Store)
    requires Inv(w) && StoreGrows(w.store, store) && ChainInv(store)
    ensures forall o :: o in w.assembled || o in w.store.terminals.Values ==> Composes(store, o)
  {
    forall o | o in w.assembled || o in w.store.terminals.Values
      ensures Composes(store, o)
    {
      ComposesStays(w.store, store, o);
    }
  }

  lemma {:induction false} RunKeepsInv(w: World, events: seq<Event>)
    requires Inv(w) && Sound(w, events)
    ensures Inv(RunAll(w, events)) && StoreGrows(w.store, RunAll(w, events).store)
    decreases events
  {
    if events != [] {
      DoKeepsInv(w, events[0]);
      DoGrows(w, events[0]);
      RunKeepsInv(Do(w, events[0]), events[1..]);
    }
  }

  ghost predicate Reachable(w: World) {
    exists events :: Sound(Init(), events) && RunAll(Init(), events) == w
  }

  lemma ReachableInv(w: World)
    requires Reachable(w)
    ensures Inv(w)
  {
    var events :| Sound(Init(), events) && RunAll(Init(), events) == w;
    RunKeepsInv(Init(), events);
  }

  // ---------------------------------------------------------------- the main results

  lemma {:induction false} ChainFrom(store: Store, id: string, i: nat, j: nat)
    requires ChainInv(store) && (id, i) in store.steps && j < i
    ensures (id, j) in store.steps && store.steps[(id, j)].status.Continue?
    ensures (id, j + 1) in store.steps && Cites(store.steps[(id, j + 1)].request, store.steps[(id, j)])
    decreases i
  {
    assert Linked(store, store.steps[(id, i)]);
    if j < i - 1 {
      ChainFrom(store, id, i - 1, j);
    }
  }

  /** In every reachable state the bound results of a run form a chain without gaps: every earlier index is
      bound, continues, and is cited exactly by its successor; so nothing follows a terminal result. */
  lemma ChainHasNoGaps(w: World, id: string, i: nat, j: nat)
    requires Reachable(w) && (id, i) in w.store.steps && j < i
    ensures (id, j) in w.store.steps && w.store.steps[(id, j)].status.Continue?
    ensures (id, j + 1) in w.store.steps && Cites(w.store.steps[(id, j + 1)].request, w.store.steps[(id, j)])
    ensures w.store.steps[(id, j)].request.run == w.store.steps[(id, i)].request.run
  {
    ReachableInv(w);
    ChainFrom(w.store, id, i, j);
    assert Linked(w.store, w.store.steps[(id, i)]) && Linked(w.store, w.store.steps[(id, j)]);
  }

  lemma StepDebits(r: StepResult, unit: string)
    requires ResultValid(r)
    ensures Total(r.budget, unit) == Total(r.request.budget, unit)
    ensures Amount(r.budget.consumed, unit) == Amount(r.request.budget.consumed, unit) + Amount(r.delta, unit)
  {
    DebitConserves(r.request.budget, r.delta, unit);
  }

  lemma BudgetStep(store: Store, id: string, i: nat, unit: string)
    requires StoreInv(store) && (id, i) in store.steps
    ensures var r := store.steps[(id, i)];
            && Total(r.budget, unit) == Total(r.request.budget, unit)
            && Amount(r.budget.consumed, unit) == Amount(r.request.budget.consumed, unit) + Amount(r.delta, unit)
            && (i > 0 ==> (id, i - 1) in store.steps && r.request.budget == store.steps[(id, i - 1)].budget)
  {
    StepDebits(store.steps[(id, i)], unit);
    assert Linked(store, store.steps[(id, i)]);
  }

  lemma {:induction false} BudgetFrom(store: Store, id: string, i: nat, unit: string)
    requires StoreInv(store) && (id, i) in store.steps
    ensures (id, 0) in store.steps
    ensures Total(store.steps[(id, i)].budget, unit) == Total(store.steps[(id, 0)].request.budget, unit)
    ensures Amount(store.steps[(id, i)].budget.consumed, unit) ==
              Amount(store.steps[(id, 0)].request.budget.consumed, unit) + Spent(store, id, i + 1, unit)
    decreases i
  {
    BudgetStep(store, id, i, unit);
    if i > 0 {
      BudgetFrom(store, id, i - 1, unit);
    }
  }

  /** What the first `n` steps of a run spent under one unit. */
  function Spent(store: Store, id: string, n: nat, unit: string): nat {
    if n == 0 then 0
    else Spent(store, id, n - 1, unit) + (if (id, n - 1) in store.steps then Amount(store.steps[(id, n - 1)].delta, unit) else 0)
  }

  /** Consumed plus remaining is the same after every step as before the first, unit by unit, and consumed has
      grown by exactly what the steps spent. */
  lemma BudgetIsConserved(w: World, id: string, i: nat, unit: string)
    requires Reachable(w) && (id, i) in w.store.steps
    ensures (id, 0) in w.store.steps
    ensures Total(w.store.steps[(id, i)].budget, unit) == Total(w.store.steps[(id, 0)].request.budget, unit)
    ensures Amount(w.store.steps[(id, i)].budget.consumed, unit) ==
              Amount(w.store.steps[(id, 0)].request.budget.consumed, unit) + Spent(w.store, id, i + 1, unit)
  {
    ReachableInv(w);
    BudgetFrom(w.store, id, i, unit);
  }

  /** Bound results, runs and terminal results never change. */
  lemma BindingsAreForever(w: World, events: seq<Event>)
    requires Reachable(w) && Sound(w, events)
    ensures StoreGrows(w.store, RunAll(w, events).store)
  {
    ReachableInv(w);
    RunKeepsInv(w, events);
  }

  /** The steps given are the whole chain of the run. */
  predicate WholeChain(store: Store, run: Run, steps: seq<StepResult>) {
    && (forall i :: 0 <= i < |steps| ==> (run.id, i) in store.steps && store.steps[(run.id, i)] == steps[i])
    && (run.id, |steps|) !in store.steps
  }

  /** A run can be terminalized exactly on its whole chain, once that chain has stopped; and what is assembled
      always passes the validation of terminal results: order, citations, terminal cardinality, retained seed. */
  lemma AssembledIsValid(w: World, run: Run, steps: seq<StepResult>)
    requires Reachable(w) && run.id in w.store.runs && w.store.runs[run.id] == run
    ensures Assemble(w.store, run, steps).Ok? <==>
              steps != [] && WholeChain(w.store, run, steps) && !steps[|steps| - 1].status.Continue?
    ensures Assemble(w.store, run, steps).Ok? ==>
              var o, last := Assemble(w.store, run, steps).value, steps[|steps| - 1];
              && OptimResultValid(o) && o.run == run && o.steps == steps && o.proposals == last.accepted
              && o.failure == last.failure && o.seedRetained == last.seedRetained
  {
    ReachableInv(w);
    AssembleIff(w.store, run, steps);
    if Assemble(w.store, run, steps).Ok? {
      assert ResultValid(w.store.steps[(run.id, |steps| - 1)]);
      WholeChainIsOrdered(w.store, run, steps);
      TerminalCardinality(w.store, run, steps);
      AssembledPasses(w.store, run, steps);
    }
  }

  lemma AssembledPasses(store: Store, run: Run, steps: seq<StepResult>)
    requires Assemble(store, run, steps).Ok?
    requires forall i :: 0 <= i < |steps| ==> BoundAt(store, run, steps, i)
    requires forall i :: 0 <= i < |steps| - 1 ==> steps[i].status.Continue?
    requires forall i :: 0 <= i < |steps| - 1 ==> Cites(steps[i + 1].request, steps[i])
    requires var last := steps[|steps| - 1];
             last.status.Complete? ==> |last.accepted| == if last.seedRetained then 0 else run.contract.CountFor(Complete)
    ensures OptimResultValid(Assemble(store, run, steps).value)
  {
    forall i | 0 <= i < |steps|
      ensures steps[i].request.index == i && steps[i].request.run == run
    {
      assert BoundAt(store, run, steps, i);
    }
  }

  lemma AssembleIff(store: Store, run: Run, steps: seq<StepResult>)
    requires ChainInv(store) && run.id in store.runs && store.runs[run.id] == run
    ensures Assemble(store, run, steps).Ok? <==>
              steps != [] && WholeChain(store, run, steps) && !steps[|steps| - 1].status.Continue?
  {
    if steps != [] && WholeChain(store, run, steps) {
      WholeChainIsOrdered(store, run, steps);
    }
    if Assemble(store, run, steps).Ok? {
      forall i | 0 <= i < |steps|
        ensures (run.id, i) in store.steps && store.steps[(run.id, i)] == steps[i]
      {
        assert BoundAt(store, run, steps, i);
      }
    }
  }

  lemma ChainLink(store: Store, run: Run, steps: seq<StepResult>, i: nat)
    requires ChainInv(store) && WholeChain(store, run, steps) && i < |steps|
    requires run.id in store.runs && store.runs[run.id] == run
    ensures BoundAt(store, run, steps, i)
    ensures i < |steps| - 1 ==> steps[i].status.Continue? && Cites(steps[i + 1].request, steps[i])
  {
    assert Linked(store, store.steps[(run.id, i)]);
    if i < |steps| - 1 {
      assert Linked(store, store.steps[(run.id, i + 1)]);
    }
  }

  lemma WholeChainIsOrdered(store: Store, run: Run, steps: seq<StepResult>)
    requires ChainInv(store) && steps != [] && WholeChain(store, run, steps)
    requires run.id in store.runs && store.runs[run.id] == run
    ensures forall i :: 0 <= i < |steps| ==> BoundAt(store, run, steps, i)
    ensures forall i :: 0 <= i < |steps| - 1 ==> steps[i].status.Continue?
    ensures forall i :: 0 <= i < |steps| - 1 ==> Cites(steps[i + 1].request, steps[i])
  {
    forall i | 0 <= i < |steps|
      ensures BoundAt(store, run, steps, i)
    {
      ChainLink(store, run, steps, i);
    }
    forall i | 0 <= i < |steps| - 1
      ensures steps[i].status.Continue? && Cites(steps[i + 1].request, steps[i])
    {
      ChainLink(store, run, steps, i);
    }
  }

  /** The cardinality of the terminal step is the run's own, because its contract honors the run's. */
  lemma TerminalCardinality(store: Store, run: Run, steps: seq<StepResult>)
    requires StoreInv(store) && steps != [] && WholeChain(store, run, steps)
    requires run.id in store.runs && store.runs[run.id] == run
    ensures var last := steps[|steps| - 1];
            last.status.Complete? ==>
              && |last.accepted| == (if last.seedRetained then 0 else run.contract.CountFor(Complete))
              && (last.seedRetained ==> run.seed.Some? && last.retained == run.seed)
  {
    var last := store.steps[(run.id, |steps| - 1)];
    assert Linked(store, last) && ResultValid(last);
  }

  // ---------------------------------------------------------------- what a step may accept

  /** How many candidates a completing step of a contract accepts, and how many a continuing one may. */
  predicate AcceptsAsNamed(contract: Contract, status: Status, count: nat) {
    match status
    case Failed => count == 0
    case Complete => if contract.terminal.Some? then count == contract.terminal.value else count == contract.returned
    case Continue =>
      if contract.floor.Some? then contract.floor.value <= count <= contract.returned else count == contract.returned
  }

  /** Every bound step accepts as many candidates as the fields of its contract name for its status; a completing
      one as many as the run's own contract names, or none when it retains the run's seed. */
  lemma StepCardinality(w: World, id: string, i: nat)
    requires Reachable(w) && (id, i) in w.store.steps
    ensures var r := w.store.steps[(id, i)];
            var contract, run := r.request.contract, r.request.run;
            && (r.seedRetained ==>
                  && r.status.Complete? && r.accepted == [] && contract.terminal.Some?
                  && run.seed.Some? && r.retained == run.seed)
            && (!r.seedRetained ==> AcceptsAsNamed(contract, r.status, |r.accepted|) && r.retained.None?)
            && (!r.seedRetained && r.status.Complete? ==> AcceptsAsNamed(run.contract, Complete, |r.accepted|))
            && (r.status.Failed? <==> r.failure.Some?)
            && (forall c :: c in r.accepted ==> c in r.proposed)
            && (!r.status.Failed? && contract.distinctBases ==>
                  forall a, b :: 0 <= a < b < |r.proposed| ==> r.proposed[a].base != r.proposed[b].base)
  {
    ReachableInv(w);
    var r := w.store.steps[(id, i)];
    assert ResultValid(r);
    forall c | c in r.accepted
      ensures c in r.proposed
    {
      assert c in multiset(r.accepted);
    }
  }

  /** What an output has to meet, field by field. */
  predicate Meets(request: Request, output: Output) {
    var contract, run := request.contract, request.run;
    && (if output.seedRetained then
          output.accepted == [] && contract.terminal.Some? && run.seed.Some? && output.retained == run.seed
        else AcceptsAsNamed(contract, output.status, |output.accepted|))
    && (contract.distinctBases ==>
          forall a, b :: 0 <= a < b < |output.proposed| ==> output.proposed[a].base != output.proposed[b].base)
    && multiset(output.accepted) <= multiset(output.proposed)
    && (output.status.Complete? ==>
          && contract.distinctBases == run.contract.distinctBases
          && (if contract.terminal.Some? then contract.terminal.value else contract.returned)
             == (if run.contract.terminal.Some? then run.contract.terminal.value else run.contract.returned))
  }

  /** An output that reaches the contract check is refused there exactly when it fails one of the field
      conditions. */
  lemma RefusedIff(store: Store, request: Request, output: Output)
    requires request.run.id in store.runs && store.runs[request.run.id] == request.run
    requires RequestValid(request) && CheckPrior(store, request).Ok?
    requires (request.run.id, request.index) !in store.steps && OutputValid(output)
    ensures Prepare(store, request, output) == Err(ContractViolated) <==> !Meets(request, output)
  {
  }

  /** A new result carries what the adapter returned, and its budget is the request's with exactly the output's
      amounts moved from remaining to consumed. */
  lemma PreparedCarriesOutput(store: Store, request: Request, output: Output, unit: string)
    requires (request.run.id, request.index) !in store.steps && Prepare(store, request, output).Ok?
    ensures var r := Prepare(store, request, output).value;
            && r.request == request && r.proposed == output.proposed && r.accepted == output.accepted
            && r.status == output.status && r.failure == output.failure && r.seedRetained == output.seedRetained
            && r.retained == output.retained && r.delta == output.delta && r.state == output.state && r.history == output.history
            && Amount(r.budget.consumed, unit) == Amount(request.budget.consumed, unit) + Amount(output.delta, unit)
            && Amount(r.budget.remaining, unit) == Amount(request.budget.remaining, unit) - Amount(output.delta, unit)
            && (unit in r.budget.remaining <==> unit in request.budget.remaining)
  {
    DebitConserves(request.budget, output.delta, unit);
  }

  /** All terminal results ever bound or assembled for a run are the same one. */
  lemma OneTerminalResult(w: World, run: Run, a: seq<StepResult>, b: seq<StepResult>)
    requires Reachable(w) && Assemble(w.store, run, a).Ok?
    ensures Assemble(w.store, run, b).Ok? ==> a == b
    ensures run.id in w.store.terminals && w.store.terminals[run.id].run == run ==>
              w.store.terminals[run.id] == Assemble(w.store, run, a).value
    ensures forall o :: o in w.assembled && o.run == run ==> o == Assemble(w.store, run, a).value
  {
    ReachableInv(w);
    if Assemble(w.store, run, b).Ok? {
      SameSteps(w.store, run, a, b);
    }
    forall o | Composes(w.store, o) && o.run == run
      ensures o == Assemble(w.store, run, a).value
    {
      SameSteps(w.store, run, a, o.steps);
    }
  }

  lemma SameSteps(store: Store, run: Run, a: seq<StepResult>, b: seq<StepResult>)
    requires Assemble(store, run, a).Ok? && Assemble(store, run, b).Ok? && ChainInv(store)
    ensures a == b
  {
    NoLongerChain(store, run, a, b);
    NoLongerChain(store, run, b, a);
    forall i | 0 <= i < |a|
      ensures a[i] == b[i]
    {
      assert BoundAt(store, run, a, i) && BoundAt(store, run, b, i);
    }
  }

  lemma NoLongerChain(store: Store, run: Run, a: seq<StepResult>, b: seq<StepResult>)
    requires Assemble(store, run, a).Ok? && Assemble(store, run, b).Ok?
    ensures |b| <= |a|
  {
    assert |a| < |b| ==> BoundAt(store, run, b, |a|);
  }

  /** Preparing a request again, once its result is bound, returns that result whatever the adapter would
      answer now, and binding it again changes nothing. */
  lemma ReplayReturnsBound(store: Store, result: StepResult, again: Output)
    requires StoreInv(store) && Linked(store, result) && RequestValid(result.request)
    requires Commit(store, result).1.Ok?
    ensures var later := Commit(store, result).0;
            Prepare(later, result.request, again) == Ok(result) && Commit(later, result) == (later, Ok(result))
  {
    var later := Commit(store, result).0;
    assert CheckPrior(later, result.request).Ok?;
  }
}
