/** Runs of one member of an optimizer other than GEPA: optimizer steps on the current head, row stages, and
    fan-ins of any episode emitted so far.  Here a fan-in is not compared with the head, so a replay can take
    the head back; what it can and cannot undo is proved below. */
module StagePlainRun {
  import opened StageFanOut
  import opened StageMember
  import opened StageRun

  function PlainRuntime(engine: Engine, output: Output): Runtime {
    Runtime(false, engine, _ => output)
  }

  /** An episode is resolved by one resolution for each of its intents. */
  predicate Allowed(engine: Engine, x: Machine, e: Event) {
    match e
    case Step(output, _) => output.Defer? ==> AllKnown(engine, output.intents)
    case Row(_, _) => true
    case Fanin(episode, found, _) => episode < |x.joins| && |found| == |x.joins[episode].state.intents|
  }

  function PlanFor(engine: Engine, x: Machine, e: Event): Plan
    requires Allowed(engine, x, e)
  {
    match e
    case Step(output, claimed) => OptimPlan(PlainRuntime(engine, output), x.member, CurrentInput(x), claimed)
    case Row(row, claimed) => RowPlan(x.member, row, claimed)
    case Fanin(episode, found, claimed) =>
      FaninPlan(PlainRuntime(engine, Finish(true, 0)), x.member, x.joins[episode], found, claimed)
  }

  function Next(engine: Engine, x: Machine, e: Event): Machine
    requires Allowed(engine, x, e)
  {
    var plan := PlanFor(engine, x, e);
    Machine(x.start, After(x.member, plan), StageRun.Known(x.joins, plan.outcome))
  }

  /** A run of any events; one that is not allowed where it comes changes nothing. */
  function Play(engine: Engine, x: Machine, events: seq<Event>): Machine {
    if events == [] then x
    else
      var y, e := Play(engine, x, events[..|events| - 1]), events[|events| - 1];
      if Allowed(engine, y, e) then Next(engine, y, e) else y
  }

  ghost predicate PlainReachable(engine: Engine, x: Machine) {
    exists events :: Play(engine, Init(x.start), events) == x
  }

  // ---------------------------------------------------------------- the invariant

  /** The result bound at `i` answers a request for exactly the results bound before it. */
  predicate Linked(steps: map<nat, StepResult>, i: nat)
    requires i in steps
  {
    && steps[i].request == Request(None, i, steps[i].request.prior) && |steps[i].request.prior| == i
    && Bound(steps, steps[i].request.prior) && Going(steps[i].request.prior)
  }

  predicate Bound(steps: map<nat, StepResult>, chain: seq<StepResult>) {
    forall i :: 0 <= i < |chain| ==> i in steps && steps[i] == chain[i]
  }

  predicate Going(chain: seq<StepResult>) {
    forall i :: 0 <= i < |chain| ==> chain[i].continues
  }

  ghost predicate AllLinked(steps: map<nat, StepResult>) {
    forall i :: i in steps ==> Linked(steps, i)
  }

  predicate HeadFits(steps: map<nat, StepResult>, head: WorkState) {
    && |head.steps| == head.stepIndex && Bound(steps, head.steps)
    && (if head.terminal then
          head.pending.None? && head.steps != [] && Going(head.steps[..|head.steps| - 1]) && !head.steps[|head.steps| - 1].continues
        else Going(head.steps))
    && (head.pending.None? ==> head.origin.None? && head.intents == [])
  }

  predicate JoinFits(engine: Engine, steps: map<nat, StepResult>, join: Join) {
    && JoinOk(join) && FansOut(engine, join) && Bound(steps, join.state.steps) && Going(join.state.steps)
    && join.state.pending.value == StepResult(
         Request(None, join.state.stepIndex, join.state.steps), true, [], join.state.pending.value.evidence)
  }

  predicate JoinsFit(engine: Engine, steps: map<nat, StepResult>, joins: seq<Join>) {
    forall i :: 0 <= i < |joins| ==> JoinFits(engine, steps, joins[i])
  }

  ghost predicate PlainInv(engine: Engine, x: Machine) {
    && x.member.deferred == map[] && AllLinked(x.member.steps)
    && JoinsFit(engine, x.member.steps, x.joins)
    && HeadFits(x.member.steps, Base(x))
    && (x.member.head.None? ==> x.joins == [] && x.member.steps == map[])
    && (Base(x).pending.Some? ==> x.joins != [] && x.joins[|x.joins| - 1].state == Base(x))
  }

  /** Binding an unbound key, or rebinding a bound one to its own result, keeps what was bound. */
  predicate Extends(before: map<nat, StepResult>, after: map<nat, StepResult>) {
    forall i :: i in before ==> i in after && after[i] == before[i]
  }

  lemma BindingKeepsLinks(engine: Engine, x: Machine, at: nat, result: StepResult)
    requires PlainInv(engine, x)
    requires at in x.member.steps ==> x.member.steps[at] == result
    requires result.request == Request(None, at, result.request.prior) && |result.request.prior| == at
    requires Bound(x.member.steps, result.request.prior) && Going(result.request.prior)
    ensures var steps := x.member.steps[at := result];
            Extends(x.member.steps, steps) && AllLinked(steps) && JoinsFit(engine, steps, x.joins)
  {
    var steps := x.member.steps[at := result];
    forall i | i in steps
      ensures Linked(steps, i)
    {
      assert i != at ==> Linked(x.member.steps, i);
    }
    forall i | 0 <= i < |x.joins|
      ensures JoinFits(engine, steps, x.joins[i])
    {
      assert JoinFits(engine, x.member.steps, x.joins[i]);
    }
  }

  // ---------------------------------------------------------------- one step

  /** What a step does to the machine: nothing, repeat a bound result, park the head, or bind a new result. */
  function StepsTo(engine: Engine, x: Machine, e: Event): Machine
    requires e.Step?
  {
    var base, at := Base(x), Base(x).stepIndex;
    var rt := PlainRuntime(engine, e.output);
    var result := ResultOf(rt, RequestOf(rt, base));
    if base.pending.Some? || base.terminal || !StageAgrees(e.claimed, base.stage) then x
    else if at in x.member.steps then
      x.(member := x.member.(head := Some(Advanced(base, x.member.steps[at]))))
    else if e.output.Defer? && e.output.intents != [] then
      var parked := Parked(engine, base, e.output.intents, base.stage, result);
      var join := JoinOf(engine, e.output.intents, base.stage, parked);
      Machine(x.start, x.member.(head := Some(parked)),
              if x.joins != [] && x.joins[|x.joins| - 1] == join then x.joins else x.joins + [join])
    else
      x.(member := x.member.(head := Some(Advanced(base, result)), steps := x.member.steps[at := result]))
  }

  lemma LoadsHead(engine: Engine, x: Machine)
    requires PlainInv(engine, x)
    ensures Load(x.member, CurrentInput(x)) == Base(x)
  {
  }

  /** A step whose index is bound already repeats the bound result and binds nothing new. */
  lemma BoundStepRepeats(rt: Runtime, m: Member, base: WorkState)
    requires !rt.gepa && m.deferred == map[] && AllLinked(m.steps) && HeadFits(m.steps, base)
    requires base.pending.None? && !base.terminal && base.stepIndex in m.steps
    ensures var next := Advanced(base, m.steps[base.stepIndex]);
            && FreshPlan(rt, m, base).outcome == Completed(next, if next.terminal then [] else [StepStage(next.stage, next)])
            && After(m, FreshPlan(rt, m, base)) == m.(head := Some(next))
  {
    var at, result := base.stepIndex, m.steps[base.stepIndex];
    RunFindsBound(rt, m, base);
    var next := Advanced(base, result);
    assert FreshPlan(rt, m, base).writes == [BindStep(at, result)] + Rebind(next);
    RebindSetsHead(m, [BindStep(at, result)], next);
    ApplyOne(m, BindStep(at, result));
    assert m.steps[at := result] == m.steps;
  }

  lemma RunFindsBound(rt: Runtime, m: Member, base: WorkState)
    requires !rt.gepa && AllLinked(m.steps) && HeadFits(m.steps, base) && !base.terminal && base.stepIndex in m.steps
    ensures RunStep(rt, m, base) == StepRun([], m.steps[base.stepIndex], [])
  {
    var at := base.stepIndex;
    assert Linked(m.steps, at);
    assert m.steps[at].request.prior == base.steps;
    assert at > 0 ==> base.steps[at - 1].continues;
  }

  lemma StaysPut(engine: Engine, x: Machine, e: Event)
    requires PlainInv(engine, x) && e.Step? && Allowed(engine, x, e)
    requires Base(x).pending.Some? || Base(x).terminal || !StageAgrees(e.claimed, Base(x).stage)
    ensures Next(engine, x, e) == x
    ensures PlanFor(engine, x, e).outcome.Failed? ==> PlanFor(engine, x, e).outcome.why.WrongStageIndex?
  {
    var base := Base(x);
    LoadsHead(engine, x);
    if base.pending.Some? {
      var last := x.joins[|x.joins| - 1];
      assert JoinFits(engine, x.member.steps, last);
      if StageAgrees(e.claimed, base.origin.value) {
        ResumeWrites(x.member, base);
        EmittedJoins(engine, base.intents, base.origin.value, base);
      }
    } else if StageAgrees(e.claimed, base.stage) {
      RebindSetsHead(x.member, [], base);
      assert [] + Rebind(base) == Rebind(base);
    }
  }

  lemma Follows(m: Member, base: WorkState)
    requires m.deferred == map[] && HeadFits(m.steps, base) && base.pending.None? && !base.terminal && base.stepIndex !in m.steps
    ensures MayFollow(m, base)
  {
  }

  /** A step on an unparked head. */
  lemma RunsOptimizer(engine: Engine, x: Machine, e: Event)
    requires PlainInv(engine, x) && e.Step? && Allowed(engine, x, e)
    requires Base(x).pending.None? && !Base(x).terminal && StageAgrees(e.claimed, Base(x).stage)
    ensures PlanFor(engine, x, e) == FreshPlan(PlainRuntime(engine, e.output), x.member, Base(x))
  {
    LoadsHead(engine, x);
    assert UnresolvedStep(x.member, Base(x)).None?;
  }

  lemma DefersTo(engine: Engine, x: Machine, e: Event)
    requires PlainInv(engine, x) && e.Step? && Allowed(engine, x, e) && e.output.Defer? && e.output.intents != []
    requires MayFollow(x.member, Base(x))
    ensures var base, rt := Base(x), PlainRuntime(engine, e.output);
            var parked := Parked(engine, base, e.output.intents, base.stage, ResultOf(rt, RequestOf(rt, base)));
            var join := JoinOf(engine, e.output.intents, base.stage, parked);
            var plan := FreshPlan(rt, x.member, base);
            && plan.outcome.Completed? && After(x.member, plan) == x.member.(head := Some(parked))
            && StageRun.Known(x.joins, plan.outcome) ==
               if x.joins != [] && x.joins[|x.joins| - 1] == join then x.joins else x.joins + [join]
  {
    var base, rt := Base(x), PlainRuntime(engine, e.output);
    FreshDefers(rt, x.member, base);
    EmittedJoins(engine, e.output.intents, base.stage,
                 Parked(engine, base, e.output.intents, base.stage, ResultOf(rt, RequestOf(rt, base))));
  }

  lemma UnparkedDoesTo(engine: Engine, x: Machine, e: Event)
    requires PlainInv(engine, x) && e.Step? && Allowed(engine, x, e)
    requires Base(x).pending.None? && !Base(x).terminal && StageAgrees(e.claimed, Base(x).stage)
    ensures var plan, y := FreshPlan(PlainRuntime(engine, e.output), x.member, Base(x)), StepsTo(engine, x, e);
            plan.outcome.Completed? && Machine(x.start, After(x.member, plan), StageRun.Known(x.joins, plan.outcome)) == y
  {
    var base, rt := Base(x), PlainRuntime(engine, e.output);
    if base.stepIndex in x.member.steps {
      BoundStepRepeats(rt, x.member, base);
      AdvancingEmitsNone(x.joins, Advanced(base, x.member.steps[base.stepIndex]));
    } else {
      Follows(x.member, base);
      if e.output.Defer? && e.output.intents != [] {
        DefersTo(engine, x, e);
      } else {
        FreshFinishes(rt, x.member, base);
        AdvancingEmitsNone(x.joins, Advanced(base, ResultOf(rt, RequestOf(rt, base))));
      }
    }
  }

  lemma AdvancingEmitsNone(joins: seq<Join>, next: WorkState)
    ensures StageRun.Known(joins, Completed(next, if next.terminal then [] else [StepStage(next.stage, next)])) == joins
  {
  }

  lemma StepDoesTo(engine: Engine, x: Machine, e: Event)
    requires PlainInv(engine, x) && e.Step? && Allowed(engine, x, e)
    ensures Next(engine, x, e) == StepsTo(engine, x, e)
    ensures PlanFor(engine, x, e).outcome.Failed? ==> PlanFor(engine, x, e).outcome.why.WrongStageIndex?
  {
    if Base(x).pending.Some? || Base(x).terminal || !StageAgrees(e.claimed, Base(x).stage) {
      StaysPut(engine, x, e);
    } else {
      RunsOptimizer(engine, x, e);
      UnparkedDoesTo(engine, x, e);
    }
  }

  lemma AdvancedFits(steps: map<nat, StepResult>, base: WorkState, result: StepResult)
    requires HeadFits(steps, base) && base.pending.None? && !base.terminal
    requires base.stepIndex in steps && steps[base.stepIndex] == result
    ensures HeadFits(steps, Advanced(base, result))
  {
    var next := Advanced(base, result);
    assert next.steps[..|next.steps| - 1] == base.steps;
  }

  /** Moving the head to an unparked state that fits what is bound. */
  lemma NewHeadKeepsInv(engine: Engine, x: Machine, m: Member, head: WorkState)
    requires m.deferred == map[] && m.head == Some(head) && head.pending.None?
    requires AllLinked(m.steps) && JoinsFit(engine, m.steps, x.joins) && HeadFits(m.steps, head)
    ensures PlainInv(engine, x.(member := m))
  {
  }

  lemma ParkFits(engine: Engine, steps: map<nat, StepResult>, base: WorkState, intents: seq<Intent>, result: StepResult)
    requires HeadFits(steps, base) && base.pending.None? && !base.terminal && intents != [] && AllKnown(engine, intents)
    requires result == StepResult(Request(None, base.stepIndex, base.steps), true, [], result.evidence)
    ensures var parked := Parked(engine, base, intents, base.stage, result);
            HeadFits(steps, parked) && JoinFits(engine, steps, JoinOf(engine, intents, base.stage, parked))
  {
  }

  lemma ParkKeepsPlainInv(engine: Engine, x: Machine, intents: seq<Intent>, result: StepResult)
    requires PlainInv(engine, x) && Base(x).pending.None? && !Base(x).terminal && intents != [] && AllKnown(engine, intents)
    requires result == StepResult(Request(None, Base(x).stepIndex, Base(x).steps), true, [], result.evidence)
    ensures var parked := Parked(engine, Base(x), intents, Base(x).stage, result);
            var join := JoinOf(engine, intents, Base(x).stage, parked);
            var m := x.member.(head := Some(parked));
            && PlainInv(engine, Machine(x.start, m, x.joins + [join]))
            && (x.joins != [] && x.joins[|x.joins| - 1] == join ==> PlainInv(engine, Machine(x.start, m, x.joins)))
  {
    ParkFits(engine, x.member.steps, Base(x), intents, result);
  }

  lemma StepKeepsPlainInv(engine: Engine, x: Machine, e: Event)
    requires PlainInv(engine, x) && e.Step? && Allowed(engine, x, e)
    ensures PlainInv(engine, StepsTo(engine, x, e)) && Extends(x.member.steps, StepsTo(engine, x, e).member.steps)
  {
    var base, at, y := Base(x), Base(x).stepIndex, StepsTo(engine, x, e);
    var rt := PlainRuntime(engine, e.output);
    var result := ResultOf(rt, RequestOf(rt, base));
    if !(base.pending.Some? || base.terminal || !StageAgrees(e.claimed, base.stage)) {
      if at in x.member.steps {
        AdvancedFits(x.member.steps, base, x.member.steps[at]);
        NewHeadKeepsInv(engine, x, y.member, y.member.head.value);
      } else if e.output.Defer? && e.output.intents != [] {
        ParkKeepsPlainInv(engine, x, e.output.intents, result);
      } else {
        BindingKeepsLinks(engine, x, at, result);
        AdvancedFits(x.member.steps[at := result], base, result);
        NewHeadKeepsInv(engine, x, y.member, y.member.head.value);
      }
    }
  }

  // ---------------------------------------------------------------- one fan-in

  /** The resolutions a fan-in merges: those its episode is bound to, or else those it found. */
  function Resolutions(m: Member, join: Join, found: seq<nat>): seq<nat> {
    if join in m.fanins then m.fanins[join] else found
  }

  /** The state that a fan-in of the episode leaves the head in, if it succeeds. */
  function Merge(m: Member, join: Join, found: seq<nat>): WorkState
    requires join.state.pending.Some?
  {
    MergedState(join, MergedResult(join, Resolutions(m, join, found)))
  }

  function FaninBinding(m: Member, join: Join, found: seq<nat>): seq<Write> {
    if join in m.fanins then [] else [BindFanin(join, found)]
  }

  /** The writes of a fan-in that merges, and of one that conflicts. */
  lemma MergeWrites(m: Member, join: Join, found: seq<nat>, k: nat, merged: StepResult, next: WorkState)
    requires k !in m.deferred
    ensures var bind, bound := FaninBinding(m, join, found), m.(fanins := m.fanins[join := Resolutions(m, join, found)]);
            && ApplyAll(m, bind + [EvictDeferred(k)]) == bound
            && ApplyAll(m, bind + [EvictDeferred(k), BindStep(k, merged)] + Rebind(next)) ==
               bound.(head := Some(next), steps := m.steps[k := merged])
  {
    var bind, bound := FaninBinding(m, join, found), m.(fanins := m.fanins[join := Resolutions(m, join, found)]);
    ApplyOne(m, BindFanin(join, found));
    assert join in m.fanins ==> m.fanins[join := m.fanins[join]] == m.fanins;
    assert ApplyAll(m, bind) == bound;
    ApplyAllConcat(m, bind, [EvictDeferred(k)]);
    ApplyOne(bound, EvictDeferred(k));
    assert bound.deferred - {k} == bound.deferred;
    var both := bind + [EvictDeferred(k), BindStep(k, merged)];
    assert both == (bind + [EvictDeferred(k)]) + [BindStep(k, merged)];
    ApplyAllConcat(m, bind + [EvictDeferred(k)], [BindStep(k, merged)]);
    ApplyOne(bound, BindStep(k, merged));
    RebindSetsHead(m, both, next);
  }

  lemma FaninWritesAre(rt: Runtime, m: Member, join: Join, found: seq<nat>, claimed: Option<nat>)
    requires !rt.gepa && join.state.pending.Some?
    ensures var plan, merged := FaninPlan(rt, m, join, found, claimed), MergedResult(join, Resolutions(m, join, found));
            var bind, k := FaninBinding(m, join, found), join.state.stepIndex;
            && (plan.outcome.Failed? ==> plan.writes == [] || plan.writes == bind + [EvictDeferred(k)])
            && (!plan.outcome.Failed? ==>
                  && plan.outcome == Merged(join, StepSuccessor(Merge(m, join, found)))
                  && (k in m.steps ==> m.steps[k] == merged)
                  && plan.writes == bind + [EvictDeferred(k), BindStep(k, merged)] + Rebind(Merge(m, join, found)))
  {
  }

  /** A fan-in puts the head on its own merge and binds the merged step; a conflicting one does neither. */
  lemma FaninDoes(rt: Runtime, m: Member, join: Join, found: seq<nat>, claimed: Option<nat>)
    requires !rt.gepa && join.state.stepIndex !in m.deferred && join.state.pending.Some?
    ensures var plan, merged := FaninPlan(rt, m, join, found, claimed), MergedResult(join, Resolutions(m, join, found));
            var after, k := After(m, plan), join.state.stepIndex;
            && (plan.outcome.Failed? ==> after == m.(fanins := after.fanins))
            && (!plan.outcome.Failed? ==>
                  && plan.outcome == Merged(join, StepSuccessor(Merge(m, join, found)))
                  && (k in m.steps ==> m.steps[k] == merged)
                  && after == m.(head := Some(Merge(m, join, found)), steps := m.steps[k := merged],
                                 fanins := m.fanins[join := Resolutions(m, join, found)]))
  {
    var k, merged := join.state.stepIndex, MergedResult(join, Resolutions(m, join, found));
    FaninWritesAre(rt, m, join, found, claimed);
    MergeWrites(m, join, found, k, merged, Merge(m, join, found));
  }

  lemma MergeFits(engine: Engine, steps: map<nat, StepResult>, join: Join, resolutions: seq<nat>)
    requires JoinFits(engine, steps, join)
    requires var k := join.state.stepIndex; k in steps && steps[k] == MergedResult(join, resolutions)
    ensures HeadFits(steps, MergedState(join, MergedResult(join, resolutions)))
  {
  }

  lemma SameHeadKeepsInv(engine: Engine, x: Machine, m: Member)
    requires PlainInv(engine, x) && m == x.member.(fanins := m.fanins, rows := m.rows)
    ensures PlainInv(engine, x.(member := m))
  {
  }

  lemma FaninKeepsPlainInv(engine: Engine, x: Machine, e: Event)
    requires PlainInv(engine, x) && e.Fanin? && Allowed(engine, x, e)
    ensures PlainInv(engine, Next(engine, x, e)) && Extends(x.member.steps, Next(engine, x, e).member.steps)
  {
    var join, y := x.joins[e.episode], Next(engine, x, e);
    assert JoinFits(engine, x.member.steps, join);
    FaninDoes(PlainRuntime(engine, Finish(true, 0)), x.member, join, e.found, e.claimed);
    assert y == x.(member := y.member);
    if PlanFor(engine, x, e).outcome.Failed? {
      SameHeadKeepsInv(engine, x, y.member);
    } else {
      BindingKeepsLinks(engine, x, join.state.stepIndex, MergedResult(join, Resolutions(x.member, join, e.found)));
      assert JoinFits(engine, y.member.steps, join);
      MergeFits(engine, y.member.steps, join, Resolutions(x.member, join, e.found));
      NewHeadKeepsInv(engine, x, y.member, y.member.head.value);
    }
  }

  lemma NextKeepsInv(engine: Engine, x: Machine, e: Event)
    requires PlainInv(engine, x) && Allowed(engine, x, e)
    ensures PlainInv(engine, Next(engine, x, e)) && Extends(x.member.steps, Next(engine, x, e).member.steps)
  {
    match e
    case Step(_, _) =>
      StepDoesTo(engine, x, e);
      StepKeepsPlainInv(engine, x, e);
    case Row(_, _) =>
      ApplyOne(x.member, BindRow(e.row));
      SameHeadKeepsInv(engine, x, Next(engine, x, e).member);
    case Fanin(_, _, _) => FaninKeepsPlainInv(engine, x, e);
  }

  // ---------------------------------------------------------------- whole runs

  lemma {:induction false} PlayKeepsInv(engine: Engine, x: Machine, events: seq<Event>)
    requires PlainInv(engine, x)
    ensures PlainInv(engine, Play(engine, x, events)) && Extends(x.member.steps, Play(engine, x, events).member.steps)
  {
    if events != [] {
      var y, e := Play(engine, x, events[..|events| - 1]), events[|events| - 1];
      PlayKeepsInv(engine, x, events[..|events| - 1]);
      if Allowed(engine, y, e) {
        NextKeepsInv(engine, y, e);
      }
    }
  }

  lemma PlainReachableInv(engine: Engine, x: Machine)
    requires PlainReachable(engine, x)
    ensures PlainInv(engine, x)
  {
    var events :| Play(engine, Init(x.start), events) == x;
    PlayKeepsInv(engine, Init(x.start), events);
  }

  lemma PlaysOneMore(engine: Engine, x: Machine, events: seq<Event>, e: Event)
    requires Allowed(engine, Play(engine, x, events), e)
    ensures Play(engine, x, events + [e]) == Next(engine, Play(engine, x, events), e)
  {
    assert (events + [e])[..|events + [e]| - 1] == events;
  }

  /** However often the head is taken back, no bound step result is ever lost or replaced. */
  lemma ResultsAreForever(engine: Engine, x: Machine, events: seq<Event>)
    requires PlainReachable(engine, x)
    ensures Extends(x.member.steps, Play(engine, x, events).member.steps)
  {
    PlainReachableInv(engine, x);
    PlayKeepsInv(engine, x, events);
  }

  /** Chains of bound results are prefixes of each other. */
  lemma BoundChainsCompare(steps: map<nat, StepResult>, a: seq<StepResult>, b: seq<StepResult>)
    requires Bound(steps, a) && Bound(steps, b) && |a| <= |b|
    ensures a <= b
  {
  }

  /** Where a successful fan-in leaves the head, whichever episode it replays: on the state of its own merge.
      That is ahead of the old head, level with it or behind it on one and the same chain of results, so the
      head goes back exactly when its results properly extend those of the merge. */
  lemma ReplayMovesHead(engine: Engine, x: Machine, e: Event)
    requires PlainReachable(engine, x) && e.Fanin? && Allowed(engine, x, e)
    ensures x.joins[e.episode].state.pending.Some?
    ensures var join, head, y := x.joins[e.episode], Base(x), Next(engine, x, e);
            var merge := Merge(x.member, join, e.found);
            !PlanFor(engine, x, e).outcome.Failed? ==>
              && y.member.head == Some(merge) && Bound(y.member.steps, merge.steps)
              && (head.steps < merge.steps || merge.steps <= head.steps)
              && (merge.stepIndex < head.stepIndex <==> merge.steps < head.steps)
  {
    PlainReachableInv(engine, x);
    FaninLands(engine, x, e);
  }

  lemma FaninLands(engine: Engine, x: Machine, e: Event)
    requires PlainInv(engine, x) && e.Fanin? && Allowed(engine, x, e)
    ensures x.joins[e.episode].state.pending.Some?
    ensures var join, head, y := x.joins[e.episode], Base(x), Next(engine, x, e);
            var merge := Merge(x.member, join, e.found);
            !PlanFor(engine, x, e).outcome.Failed? ==>
              && y.member.head == Some(merge) && Bound(y.member.steps, merge.steps) && |merge.steps| == merge.stepIndex
              && |head.steps| == head.stepIndex
              && (if head.stepIndex <= merge.stepIndex then head.steps <= merge.steps else merge.steps <= head.steps)
  {
    var join, y := x.joins[e.episode], Next(engine, x, e);
    assert JoinFits(engine, x.member.steps, join);
    if !PlanFor(engine, x, e).outcome.Failed? {
      NextKeepsInv(engine, x, e);
      FaninDoes(PlainRuntime(engine, Finish(true, 0)), x.member, join, e.found, e.claimed);
      var head, merge := Base(x), Merge(x.member, join, e.found);
      assert Bound(y.member.steps, head.steps);
      if head.stepIndex <= merge.stepIndex {
        BoundChainsCompare(y.member.steps, head.steps, merge.steps);
      } else {
        BoundChainsCompare(y.member.steps, merge.steps, head.steps);
      }
    }
  }

  /** A head that was taken back catches up: as many steps as it lost, whatever the optimizer would answer now,
      put it on the same results again and bind nothing. */
  lemma {:induction false} HeadCatchesUp(engine: Engine, x: Machine, output: Output, top: nat)
    requires PlainReachable(engine, x) && Base(x).pending.None? && !Base(x).terminal && Base(x).stepIndex <= top
    requires output.Defer? ==> AllKnown(engine, output.intents)
    requires Base(x).stepIndex < top ==> top - 1 in x.member.steps
    ensures var y := Play(engine, x, seq(top - Base(x).stepIndex, _ => Step(output, None)));
            && y.member == x.member.(head := y.member.head) && y.joins == x.joins && y.start == x.start
            && Base(y).pending.None? && Base(y).stepIndex == top
            && Bound(x.member.steps, Base(y).steps) && |Base(y).steps| == top
  {
    PlainReachableInv(engine, x);
    if Base(x).stepIndex < top {
      var e, most := Step(output, None), seq(top - 1 - Base(x).stepIndex, _ => Step(output, None));
      assert seq(top - Base(x).stepIndex, _ => e) == most + [e];
      BoundBelow(x.member.steps, top);
      HeadCatchesUp(engine, x, output, top - 1);
      PlayKeepsInv(engine, x, most);
      PlaysOneMore(engine, x, most, e);
      RepeatsBound(engine, Play(engine, x, most), e);
    }
  }

  lemma RepeatsBound(engine: Engine, x: Machine, e: Event)
    requires PlainInv(engine, x) && e.Step? && e.claimed.None? && Allowed(engine, x, e)
    requires Base(x).pending.None? && Base(x).stepIndex in x.member.steps
    ensures var y := Next(engine, x, e);
            && y == x.(member := x.member.(head := Some(Advanced(Base(x), x.member.steps[Base(x).stepIndex]))))
            && Bound(x.member.steps, Base(y).steps)
  {
    BehindIsNotTerminal(x.member.steps, Base(x));
    StepDoesTo(engine, x, e);
  }

  lemma BehindIsNotTerminal(steps: map<nat, StepResult>, base: WorkState)
    requires AllLinked(steps) && HeadFits(steps, base) && base.stepIndex in steps
    ensures !base.terminal
  {
    var at := base.stepIndex;
    assert Linked(steps, at);
    assert at > 0 ==> base.steps[at - 1] == steps[at].request.prior[at - 1];
  }

  lemma BoundBelow(steps: map<nat, StepResult>, top: nat)
    requires AllLinked(steps) && 0 < top && top - 1 in steps
    ensures top > 1 ==> top - 2 in steps
  {
    assert Linked(steps, top - 1);
  }

  // ---------------------------------------------------------------- what a step and a fan-in leave, field by field

  /** From every reachable unparked head at an unbound step, an answer that finishes the step binds a result that
      answers the head's own request and carries the answer; the head moves on by one stage and one step, it is
      terminal exactly when the optimizer does not continue, and then nothing follows. */
  lemma FinishingPlainStep(engine: Engine, x: Machine, output: Output, continues: bool, claimed: Option<nat>)
    requires PlainReachable(engine, x) && Base(x).pending.None? && !Base(x).terminal && StageAgrees(claimed, Base(x).stage)
    requires Base(x).stepIndex !in x.member.steps
    requires output == Finish(continues, output.evidence) || (continues && output == Defer([], output.evidence))
    ensures var base, k := Base(x), Base(x).stepIndex;
            var plan := PlanFor(engine, x, Step(output, claimed));
            var result := StepResult(Request(None, k, base.steps), continues, [], output.evidence);
            var next := WorkState(base.stage + 1, k + 1, base.steps + [result], !continues, None, None, []);
            && After(x.member, plan) == x.member.(head := Some(next), steps := x.member.steps[k := result])
            && plan.outcome == Completed(next, if continues then [StepStage(base.stage + 1, next)] else [])
  {
    PlainReachableInv(engine, x);
    RunsOptimizer(engine, x, Step(output, claimed));
    Follows(x.member, Base(x));
    PlainFinishes(PlainRuntime(engine, output), x.member, Base(x), output, continues);
  }

  /** A deferral with intents parks the head on the barrier of its fan-out, with a pending result that continues,
      answers the head's own request and carries the answer's evidence; nothing else is bound. */
  lemma DeferringPlainStep(engine: Engine, x: Machine, intents: seq<Intent>, evidence: nat, claimed: Option<nat>)
    requires PlainReachable(engine, x) && Base(x).pending.None? && !Base(x).terminal && StageAgrees(claimed, Base(x).stage)
    requires Base(x).stepIndex !in x.member.steps && intents != [] && AllKnown(engine, intents)
    ensures var base := Base(x);
            var plan := PlanFor(engine, x, Step(Defer(intents, evidence), claimed));
            var pending := StepResult(Request(None, base.stepIndex, base.steps), true, [], evidence);
            var parked := ParkedOn(engine, base, intents, pending);
            && After(x.member, plan) == x.member.(head := Some(parked))
            && plan.outcome == Completed(parked, Emitted(engine, intents, base.stage, parked))
  {
    PlainReachableInv(engine, x);
    RunsOptimizer(engine, x, Step(Defer(intents, evidence), claimed));
    Follows(x.member, Base(x));
    PlainDefers(PlainRuntime(engine, Defer(intents, evidence)), x.member, Base(x), intents, evidence);
  }

  lemma PlainDefers(rt: Runtime, m: Member, base: WorkState, intents: seq<Intent>, evidence: nat)
    requires !rt.gepa && MayFollow(m, base) && rt.adapter(Request(None, base.stepIndex, base.steps)) == Defer(intents, evidence)
    requires intents != [] && AllKnown(rt.engine, intents)
    ensures var pending := StepResult(Request(None, base.stepIndex, base.steps), true, [], evidence);
            var parked := ParkedOn(rt.engine, base, intents, pending);
            && FreshPlan(rt, m, base).outcome == Completed(parked, Emitted(rt.engine, intents, base.stage, parked))
            && After(m, FreshPlan(rt, m, base)) == m.(head := Some(parked))
  {
    FreshDefers(rt, m, base);
  }

  lemma PlainFinishes(rt: Runtime, m: Member, base: WorkState, output: Output, continues: bool)
    requires !rt.gepa && MayFollow(m, base) && rt.adapter(Request(None, base.stepIndex, base.steps)) == output
    requires output == Finish(continues, output.evidence) || (continues && output == Defer([], output.evidence))
    ensures var result := StepResult(Request(None, base.stepIndex, base.steps), continues, [], output.evidence);
            var next := WorkState(base.stage + 1, base.stepIndex + 1, base.steps + [result], !continues, None, None, []);
            && FreshPlan(rt, m, base).outcome == Completed(next, if continues then [StepStage(base.stage + 1, next)] else [])
            && After(m, FreshPlan(rt, m, base)) == m.(head := Some(next), steps := m.steps[base.stepIndex := result])
  {
    FreshFinishes(rt, m, base);
  }

  /** On a step that is bound already, as after a fan-in took the head back, the bound result is taken over, whatever
      the optimizer would answer now. */
  lemma RepeatingPlainStep(engine: Engine, x: Machine, output: Output, claimed: Option<nat>)
    requires PlainReachable(engine, x) && Base(x).pending.None? && !Base(x).terminal && StageAgrees(claimed, Base(x).stage)
    requires Base(x).stepIndex in x.member.steps && Allowed(engine, x, Step(output, claimed))
    ensures var base, result := Base(x), x.member.steps[Base(x).stepIndex];
            var plan := PlanFor(engine, x, Step(output, claimed));
            var next := WorkState(base.stage + 1, base.stepIndex + 1, base.steps + [result], !result.continues, None, None, []);
            && After(x.member, plan) == x.member.(head := Some(next))
            && plan.outcome == Completed(next, if result.continues then [StepStage(base.stage + 1, next)] else [])
  {
    PlainReachableInv(engine, x);
    RunsOptimizer(engine, x, Step(output, claimed));
    BoundStepRepeats(PlainRuntime(engine, output), x.member, Base(x));
  }

  /** A step stage that is called at another stage than its head's is refused; one on a terminal head reports it
      again without a successor; one on a parked head emits its fan-out again.  None of them changes anything. */
  lemma PlainStepsAside(engine: Engine, x: Machine, output: Output, claimed: Option<nat>)
    requires PlainReachable(engine, x) && Allowed(engine, x, Step(output, claimed))
    ensures var base, plan := Base(x), PlanFor(engine, x, Step(output, claimed));
            var expected := if base.pending.Some? && base.origin.Some? then base.origin.value else base.stage;
            && (plan.outcome == Failed(WrongStageIndex) <==> claimed.Some? && claimed.value != expected)
            && (plan.outcome.Failed? || base.terminal || base.pending.Some? ==> After(x.member, plan) == x.member)
            && (!plan.outcome.Failed? && base.terminal ==> plan.outcome == Completed(base, []))
            && (!plan.outcome.Failed? && base.pending.Some? ==>
                  base.intents != [] && plan.outcome == Completed(base, Emitted(engine, base.intents, expected, base)))
  {
    PlainReachableInv(engine, x);
    PlainAsideOn(engine, x, output, claimed, PlanFor(engine, x, Step(output, claimed)));
  }

  lemma PlainAsideOn(engine: Engine, x: Machine, output: Output, claimed: Option<nat>, plan: Plan)
    requires PlainInv(engine, x) && Allowed(engine, x, Step(output, claimed)) && plan == PlanFor(engine, x, Step(output, claimed))
    ensures var base := Base(x);
            var expected := if base.pending.Some? && base.origin.Some? then base.origin.value else base.stage;
            && (plan.outcome == Failed(WrongStageIndex) <==> claimed.Some? && claimed.value != expected)
            && (plan.outcome.Failed? || base.terminal || base.pending.Some? ==> After(x.member, plan) == x.member)
            && (!plan.outcome.Failed? && base.terminal ==> plan.outcome == Completed(base, []))
            && (!plan.outcome.Failed? && base.pending.Some? ==>
                  base.intents != [] && plan.outcome == Completed(base, Emitted(engine, base.intents, expected, base)))
  {
    var base := Base(x);
    LoadsHead(engine, x);
    if base.pending.Some? {
      assert JoinFits(engine, x.member.steps, x.joins[|x.joins| - 1]);
      if StageAgrees(claimed, base.origin.value) { ResumeWrites(x.member, base); }
    } else if StageAgrees(claimed, base.stage) {
      if base.terminal {
        RebindSetsHead(x.member, [], base);
        assert [] + Rebind(base) == Rebind(base);
      } else {
        RunsOptimizer(engine, x, Step(output, claimed));
        UnparkedDoesTo(engine, x, Step(output, claimed));
      }
    }
  }

  /** A fan-in succeeds exactly when it is called at its barrier, its rows are there and its step holds no other
      result; it then binds the resolutions, binds the step to the pending result with those resolutions, and
      hands the next step on to the next stage. */
  lemma MergingFanin(engine: Engine, x: Machine, e: Event)
    requires PlainReachable(engine, x) && e.Fanin? && Allowed(engine, x, e)
    ensures x.joins[e.episode].state.pending.Some?
    ensures var join, plan := x.joins[e.episode], PlanFor(engine, x, e);
            var state, k, after := join.state, join.state.stepIndex, After(x.member, plan);
            var resolutions := if join in x.member.fanins then x.member.fanins[join] else e.found;
            var merged := state.pending.value.(resolved := resolutions);
            var next := WorkState(state.stage + 1, k + 1, state.steps + [merged], false, None, None, []);
            && (!plan.outcome.Failed? <==>
                  && (e.claimed.None? || e.claimed.value == state.stage)
                  && join.rows != [] && (forall row :: row in join.rows ==> row in x.member.rows)
                  && (k in x.member.steps ==> x.member.steps[k] == merged))
            && (!plan.outcome.Failed? ==>
                  && after == x.member.(head := Some(next), steps := x.member.steps[k := merged],
                                        fanins := x.member.fanins[join := resolutions])
                  && plan.outcome == Merged(join, [StepStage(state.stage + 1, next)]))
  {
    PlainReachableInv(engine, x);
    var join := x.joins[e.episode];
    assert JoinFits(engine, x.member.steps, join);
    FaninDoes(PlainRuntime(engine, Finish(true, 0)), x.member, join, e.found, e.claimed);
  }

  // ---------------------------------------------------------------- one episode for each step

  /** A step runs only while no episode of its index is known: the one-deferral-a-step that the fan-in relies on. */
  predicate Orderly(x: Machine, e: Event) {
    e.Step? && Base(x).pending.None? ==>
      forall i :: 0 <= i < |x.joins| ==> x.joins[i].state.stepIndex != Base(x).stepIndex
  }

  predicate OrderlyRun(engine: Engine, x: Machine, events: seq<Event>) {
    events != [] ==>
      && OrderlyRun(engine, x, events[..|events| - 1])
      && Orderly(Play(engine, x, events[..|events| - 1]), events[|events| - 1])
  }

  ghost predicate OrderlyReachable(engine: Engine, x: Machine) {
    exists events :: OrderlyRun(engine, Init(x.start), events) && Play(engine, Init(x.start), events) == x
  }

  /** How far apart the stages of two episodes are at least. */
  predicate Earlier(a: Join, b: Join) {
    a.state.stepIndex < b.state.stepIndex && a.state.stage + (b.state.stepIndex - a.state.stepIndex) <= b.origin
  }

  /** The stage of a head against that of an episode it has not reached, just left or left behind. */
  predicate Placed(head: WorkState, join: Join) {
    var k := join.state.stepIndex;
    if head.stepIndex <= k then
      head == join.state || (head.pending.None? && head.stage + (k - head.stepIndex) <= join.origin)
    else
      && head.stage >= join.state.stage + (head.stepIndex - k)
      && (head.stepIndex == k + 1 ==> (head.pending.None? <==> head.stage == join.state.stage + 1))
  }

  /** A bound step that deferred holds what its episode was resolved to. */
  predicate Settled(m: Member, join: Join)
    requires join.state.pending.Some?
  {
    join.state.stepIndex in m.steps ==> join in m.fanins && m.steps[join.state.stepIndex] == MergedResult(join, m.fanins[join])
  }

  predicate InOrder(joins: seq<Join>) {
    forall i, j :: 0 <= i < j < |joins| ==> Earlier(joins[i], joins[j])
  }

  ghost predicate OrderlyInv(engine: Engine, x: Machine) {
    && PlainInv(engine, x) && InOrder(x.joins)
    && (forall i :: 0 <= i < |x.joins| ==> Placed(Base(x), x.joins[i]))
    && (forall i :: 0 <= i < |x.joins| ==> JoinOk(x.joins[i]) && Settled(x.member, x.joins[i]))
  }

  lemma AdvancedIsPlaced(head: WorkState, result: StepResult, join: Join)
    requires Placed(head, join) && head.pending.None? && head.stepIndex != join.state.stepIndex && JoinOk(join)
    ensures Placed(Advanced(head, result), join)
  {
  }

  lemma AdvancingKeepsOrder(engine: Engine, x: Machine, e: Event)
    requires OrderlyInv(engine, x) && e.Step? && Allowed(engine, x, e) && Orderly(x, e)
    requires PlainInv(engine, StepsTo(engine, x, e)) && StepsTo(engine, x, e).joins == x.joins
    requires StepsTo(engine, x, e).member.head != x.member.head
    requires Base(StepsTo(engine, x, e)).pending.None?
    ensures OrderlyInv(engine, StepsTo(engine, x, e))
  {
    var y := StepsTo(engine, x, e);
    var result := Base(y).steps[Base(x).stepIndex];
    assert Base(y) == Advanced(Base(x), result);
    forall i | 0 <= i < |x.joins|
      ensures Placed(Base(y), x.joins[i]) && JoinOk(x.joins[i]) && Settled(y.member, x.joins[i])
    {
      assert Placed(Base(x), x.joins[i]) && JoinOk(x.joins[i]) && Settled(x.member, x.joins[i]);
      AdvancedIsPlaced(Base(x), result, x.joins[i]);
    }
  }

  /** An episode emitted by an unbound step comes behind all others. */
  lemma ParkingKeepsOrder(engine: Engine, x: Machine, join: Join)
    requires OrderlyInv(engine, x) && Base(x).pending.None? && Base(x).stepIndex !in x.member.steps
    requires forall i :: 0 <= i < |x.joins| ==> x.joins[i].state.stepIndex != Base(x).stepIndex
    requires JoinOk(join) && FansOut(engine, join) && join.origin == Base(x).stage && join.state.stepIndex == Base(x).stepIndex
    requires PlainInv(engine, Machine(x.start, x.member.(head := Some(join.state)), x.joins + [join]))
    ensures OrderlyInv(engine, Machine(x.start, x.member.(head := Some(join.state)), x.joins + [join]))
  {
    var y := Machine(x.start, x.member.(head := Some(join.state)), x.joins + [join]);
    forall i | 0 <= i < |x.joins|
      ensures Earlier(x.joins[i], join) && Placed(join.state, x.joins[i])
    {
      assert Placed(Base(x), x.joins[i]) && JoinFits(engine, x.member.steps, x.joins[i]);
    }
  }

  lemma StepKeepsOrder(engine: Engine, x: Machine, e: Event)
    requires OrderlyInv(engine, x) && e.Step? && Allowed(engine, x, e) && Orderly(x, e)
    ensures OrderlyInv(engine, StepsTo(engine, x, e))
  {
    var base := Base(x);
    var rt := PlainRuntime(engine, e.output);
    StepKeepsPlainInv(engine, x, e);
    if !(base.pending.Some? || base.terminal || !StageAgrees(e.claimed, base.stage)) {
      if base.stepIndex !in x.member.steps && e.output.Defer? && e.output.intents != [] {
        var result := ResultOf(rt, RequestOf(rt, base));
        var parked := Parked(engine, base, e.output.intents, base.stage, result);
        ParkFits(engine, x.member.steps, base, e.output.intents, result);
        ParkingKeepsOrder(engine, x, JoinOf(engine, e.output.intents, base.stage, parked));
      } else {
        AdvancingKeepsOrder(engine, x, e);
      }
    }
  }

  lemma MergeIsPlaced(joins: seq<Join>, i: nat, j: nat, resolutions: seq<nat>)
    requires InOrder(joins) && i < |joins| && j < |joins| && JoinOk(joins[i]) && JoinOk(joins[j])
    ensures Placed(MergedState(joins[i], MergedResult(joins[i], resolutions)), joins[j])
  {
    assert j < i ==> Earlier(joins[j], joins[i]);
    assert i < j ==> Earlier(joins[i], joins[j]);
  }

  /** A fan-in never meets a conflicting result when no step ran beside its episode. */
  lemma OrderlyFaninFails(engine: Engine, x: Machine, e: Event)
    requires OrderlyInv(engine, x) && e.Fanin? && Allowed(engine, x, e)
    ensures var plan := PlanFor(engine, x, e);
            plan.outcome.Failed? ==> plan.outcome.why in {WrongStageIndex, RowsMissing, NoRows} && After(x.member, plan) == x.member
  {
    var join := x.joins[e.episode];
    assert JoinOk(join) && Settled(x.member, join);
  }

  lemma OthersStaySettled(m: Member, after: Member, join: Join, other: Join, resolutions: seq<nat>)
    requires JoinOk(join) && JoinOk(other) && Settled(m, other)
    requires other == join || other.state.stepIndex != join.state.stepIndex
    requires after.steps == m.steps[join.state.stepIndex := MergedResult(join, resolutions)]
    requires after.fanins == m.fanins[join := resolutions]
    ensures Settled(after, other)
  {
  }

  lemma FaninKeepsOrder(engine: Engine, x: Machine, e: Event)
    requires OrderlyInv(engine, x) && e.Fanin? && Allowed(engine, x, e)
    ensures OrderlyInv(engine, Next(engine, x, e))
  {
    assert JoinOk(x.joins[e.episode]);
    NextKeepsInv(engine, x, e);
    if PlanFor(engine, x, e).outcome.Failed? {
      OrderlyFaninFails(engine, x, e);
    } else {
      MergingKeepsOrder(engine, x, e, x.joins[e.episode]);
    }
  }

  lemma MergingKeepsOrder(engine: Engine, x: Machine, e: Event, join: Join)
    requires OrderlyInv(engine, x) && e.Fanin? && Allowed(engine, x, e)
    requires join == x.joins[e.episode] && JoinOk(join) && PlainInv(engine, Next(engine, x, e))
    requires !PlanFor(engine, x, e).outcome.Failed?
    ensures OrderlyInv(engine, Next(engine, x, e))
  {
    var resolutions, y := Resolutions(x.member, join, e.found), Next(engine, x, e);
    FaninDoes(PlainRuntime(engine, Finish(true, 0)), x.member, join, e.found, e.claimed);
    forall j | 0 <= j < |x.joins|
      ensures Placed(Base(y), x.joins[j]) && JoinOk(x.joins[j]) && Settled(y.member, x.joins[j])
    {
      MergeIsPlaced(x.joins, e.episode, j, resolutions);
      if j != e.episode { DistinctSteps(x.joins, j, e.episode); }
      OthersStaySettled(x.member, y.member, join, x.joins[j], resolutions);
    }
  }

  lemma DistinctSteps(joins: seq<Join>, i: nat, j: nat)
    requires InOrder(joins) && i < |joins| && j < |joins| && i != j
    ensures joins[i].state.stepIndex != joins[j].state.stepIndex
  {
    assert if i < j then Earlier(joins[i], joins[j]) else Earlier(joins[j], joins[i]);
  }

  lemma NextKeepsOrder(engine: Engine, x: Machine, e: Event)
    requires OrderlyInv(engine, x) && Allowed(engine, x, e) && Orderly(x, e)
    ensures OrderlyInv(engine, Next(engine, x, e))
  {
    match e
    case Step(_, _) =>
      StepDoesTo(engine, x, e);
      StepKeepsOrder(engine, x, e);
    case Row(_, _) => RowKeepsOrder(engine, x, e);
    case Fanin(_, _, _) => FaninKeepsOrder(engine, x, e);
  }

  lemma RowKeepsOrder(engine: Engine, x: Machine, e: Event)
    requires OrderlyInv(engine, x) && e.Row?
    ensures OrderlyInv(engine, Next(engine, x, e))
  {
    ApplyOne(x.member, BindRow(e.row));
    NextKeepsInv(engine, x, e);
    var y := Next(engine, x, e);
    assert y == x.(member := x.member.(rows := y.member.rows));
    forall i | 0 <= i < |x.joins|
      ensures Settled(y.member, y.joins[i])
    {
      assert Settled(x.member, x.joins[i]);
    }
  }

  lemma {:induction false} PlayKeepsOrder(engine: Engine, x: Machine, events: seq<Event>)
    requires OrderlyInv(engine, x) && OrderlyRun(engine, x, events)
    ensures OrderlyInv(engine, Play(engine, x, events))
  {
    if events != [] {
      var y, e := Play(engine, x, events[..|events| - 1]), events[|events| - 1];
      PlayKeepsOrder(engine, x, events[..|events| - 1]);
      if Allowed(engine, y, e) {
        NextKeepsOrder(engine, y, e);
      }
    }
  }

  lemma OrderlyReachableInv(engine: Engine, x: Machine)
    requires OrderlyReachable(engine, x)
    ensures OrderlyInv(engine, x)
  {
    var events :| OrderlyRun(engine, Init(x.start), events) && Play(engine, Init(x.start), events) == x;
    PlayKeepsOrder(engine, Init(x.start), events);
  }

  /** In a run with one deferral for each step, no step and no fan-in of any episode meets a conflict, and one
      that fails writes nothing. */
  lemma OrderlyRunsNeverConflict(engine: Engine, x: Machine, e: Event)
    requires OrderlyReachable(engine, x) && Allowed(engine, x, e)
    ensures var plan := PlanFor(engine, x, e);
            plan.outcome.Failed? ==>
              && (plan.outcome.why == WrongStageIndex || (e.Fanin? && plan.outcome.why in {RowsMissing, NoRows}))
              && (e.Fanin? ==> After(x.member, plan) == x.member)
  {
    OrderlyReachableInv(engine, x);
    match e
    case Step(_, _) => StepDoesTo(engine, x, e);
    case Row(_, _) =>
    case Fanin(_, _, _) => OrderlyFaninFails(engine, x, e);
  }

  /** In such a run, a successful fan-in lowers the stage of the head exactly when the head has moved past the
      state of this episode's own merge: it holds all results of the merge and is no longer that state. */
  lemma StageFallsIffMovedPast(engine: Engine, x: Machine, e: Event)
    requires OrderlyReachable(engine, x) && e.Fanin? && Allowed(engine, x, e)
    ensures x.joins[e.episode].state.pending.Some?
    ensures var head, merge := Base(x), Merge(x.member, x.joins[e.episode], e.found);
            !PlanFor(engine, x, e).outcome.Failed? ==>
              (HeadStage(Next(engine, x, e)) < HeadStage(x) <==> merge.steps <= head.steps && head != merge)
  {
    OrderlyReachableInv(engine, x);
    var join := x.joins[e.episode];
    assert JoinFits(engine, x.member.steps, join) && Placed(Base(x), join);
    FaninLands(engine, x, e);
    if !PlanFor(engine, x, e).outcome.Failed? {
      var head, merge := Base(x), Merge(x.member, join, e.found);
      if head.stepIndex == merge.stepIndex && head.pending.None? {
        assert head.steps == merge.steps && merge.steps[|merge.steps| - 1].continues;
      }
    }
  }
}
