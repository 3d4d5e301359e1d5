/** Runs of one GEPA member: optimizer steps on the current head, row stages, and fan-ins of any episode
    emitted so far, replayed any number of times in any order. */
module StageRun {
  import opened StageFanOut
  import opened StageMember

  /** `start` is the stage of the member's work input; `joins` are the episodes emitted so far, in order. */
  datatype Machine = Machine(start: nat, member: Member, joins: seq<Join>)

  /** A step event brings what the optimizer answers; a fan-in event names an emitted episode. */
  datatype Event =
    | Step(output: Output, claimed: Option<nat>)
    | Row(row: RowInput, claimed: Option<nat>)
    | Fanin(episode: nat, found: seq<nat>, claimed: Option<nat>)

  function Init(start: nat): Machine {
    Machine(start, Member(None, map[], map[], {}, map[]), [])
  }

  function GepaRuntime(engine: Engine, output: Output): Runtime {
    Runtime(true, engine, _ => output)
  }

  /** The current head, or the member's work input before there is one. */
  function CurrentInput(x: Machine): Input {
    if x.member.head.Some? then StateRef(x.member.head.value) else WorkInput(x.start)
  }

  predicate Possible(engine: Engine, x: Machine, e: Event) {
    match e
    case Step(output, _) => output.Defer? ==> AllKnown(engine, output.intents)
    case Row(_, _) => true
    case Fanin(episode, _, _) => episode < |x.joins|
  }

  function PlanOf(engine: Engine, x: Machine, e: Event): Plan
    requires Possible(engine, x, e)
  {
    match e
    case Step(output, claimed) => OptimPlan(GepaRuntime(engine, output), x.member, CurrentInput(x), claimed)
    case Row(row, claimed) => RowPlan(x.member, row, claimed)
    case Fanin(episode, found, claimed) =>
      FaninPlan(GepaRuntime(engine, Finish(true, 0)), x.member, x.joins[episode], found, claimed)
  }

  function JoinsOf(successors: seq<Successor>): seq<Join> {
    if successors != [] && successors[|successors| - 1].FaninStage? then [successors[|successors| - 1].join] else []
  }

  /** The episodes known once an outcome is reported: emitting the latest one again adds nothing. */
  function Known(joins: seq<Join>, outcome: Outcome): seq<Join> {
    var added := if outcome.Completed? then JoinsOf(outcome.successors) else [];
    if added == [] || (joins != [] && joins[|joins| - 1] == added[0]) then joins else joins + added
  }

  function Do(engine: Engine, x: Machine, e: Event): Machine
    requires Possible(engine, x, e)
  {
    var plan := PlanOf(engine, x, e);
    Machine(x.start, After(x.member, plan), Known(x.joins, plan.outcome))
  }

  ghost predicate Sound(engine: Engine, x: Machine, events: seq<Event>)
    decreases events
  {
    events != [] ==>
      Possible(engine, x, events[0]) && Sound(engine, Do(engine, x, events[0]), events[1..])
  }

  function Run(engine: Engine, x: Machine, events: seq<Event>): Machine
    requires Sound(engine, x, events)
    decreases events
  {
    if events == [] then x else Run(engine, Do(engine, x, events[0]), events[1..])
  }

  // ---------------------------------------------------------------- the invariant

  /** The state a fan-in leaves the head in. */
  function Resumption(join: Join): WorkState {
    WorkState(join.state.stage + 1, join.state.stepIndex, join.state.steps, false, None, None, [])
  }

  ghost predicate ChainBound(m: Member, state: WorkState) {
    && |state.steps| == state.stepIndex
    && (forall i :: i in m.steps <==> 0 <= i < |state.steps|)
    && (forall i :: 0 <= i < |state.steps| ==> m.steps[i] == state.steps[i])
    && (forall i :: 0 <= i < |state.steps| ==> (state.steps[i].continues || (state.terminal && i == |state.steps| - 1)))
    && (state.terminal ==> state.steps != [] && !state.steps[|state.steps| - 1].continues)
  }

  predicate JoinOk(join: Join) {
    && join.state.pending.Some? && join.state.origin == Some(join.origin) && join.state.intents != []
    && !join.state.terminal && |join.state.steps| == join.state.stepIndex
    && join.origin < join.state.stage
  }

  predicate JoinsOk(joins: seq<Join>) {
    forall i :: 0 <= i < |joins| ==> JoinOk(joins[i])
  }

  /** An episode is exactly what the fan-out of its parked state emits. */
  predicate FansOut(engine: Engine, join: Join) {
    && join.state.intents != [] && AllKnown(engine, join.state.intents)
    && join == JoinOf(engine, join.state.intents, join.origin, join.state)
    && join.state.stage == join.origin + RowCount(engine, join.state.intents) + 1
  }

  predicate JoinsOrdered(joins: seq<Join>) {
    forall i, j :: 0 <= i < j < |joins| ==>
      joins[i].state.stage + 1 <= joins[j].origin && joins[i].state.stepIndex <= joins[j].state.stepIndex
  }

  /** How the head relates to the latest episode. */
  predicate HeadOk(head: WorkState, joins: seq<Join>) {
    if head.pending.Some? then joins != [] && joins[|joins| - 1].state == head
    else
      && head.origin.None? && head.intents == []
      && (joins != [] ==>
            var last := joins[|joins| - 1];
            head == Resumption(last) || (head.stepIndex > last.state.stepIndex && head.stage > last.state.stage))
  }

  ghost predicate Core(x: Machine) {
    && x.member.deferred == map[]
    && JoinsOk(x.joins) && JoinsOrdered(x.joins)
    && match x.member.head
       case None => x.joins == [] && x.member.steps == map[]
       case Some(head) => ChainBound(x.member, head) && HeadOk(head, x.joins)
  }

  ghost predicate Inv(engine: Engine, x: Machine) {
    Core(x) && forall i :: 0 <= i < |x.joins| ==> FansOut(engine, x.joins[i])
  }

  // ---------------------------------------------------------------- one event

  lemma ApplyOne(m: Member, w: Write)
    ensures ApplyAll(m, [w]) == Apply(m, w)
  {
    assert [w][..0] == [];
  }

  lemma ApplyTwo(m: Member, a: Write, b: Write)
    ensures ApplyAll(m, [a, b]) == Apply(Apply(m, a), b)
  {
    assert [a, b][..1] == [a];
    assert ApplyAll(m, [a]) == Apply(m, a);
  }

  lemma RebindSetsHead(m: Member, ws: seq<Write>, state: WorkState)
    ensures ApplyAll(m, ws + Rebind(state)) == ApplyAll(m, ws).(head := Some(state))
  {
    ApplyAllConcat(m, ws, Rebind(state));
    ApplyTwo(ApplyAll(m, ws), EvictHead, BindHead(state));
  }

  /** The state an unparked step starts from. */
  function Base(x: Machine): WorkState {
    if x.member.head.Some? then x.member.head.value else WorkState(x.start, 0, [], false, None, None, [])
  }

  lemma LoadsBase(engine: Engine, x: Machine)
    requires Inv(engine, x)
    ensures Load(x.member, CurrentInput(x)) == Base(x)
    ensures ChainBound(x.member, Base(x))
  {
  }

  /** A step on an unparked head: it finishes the step, or parks the head on a new episode. */
  lemma UnparkedStep(engine: Engine, x: Machine, output: Output, claimed: Option<nat>)
    requires Inv(engine, x) && Base(x).pending.None? && !Base(x).terminal
    requires Possible(engine, x, Step(output, claimed)) && StageAgrees(claimed, Base(x).stage)
    ensures var base, plan := Base(x), PlanOf(engine, x, Step(output, claimed));
            var rt := GepaRuntime(engine, output);
            var result := ResultOf(rt, RequestOf(rt, base));
            if output.Defer? && output.intents != [] then
              var parked := Parked(engine, base, output.intents, base.stage, result);
              && After(x.member, plan) == x.member.(head := Some(parked))
              && plan.outcome == Completed(parked, Emitted(engine, output.intents, base.stage, parked))
            else
              var next := Advanced(base, result);
              && After(x.member, plan) == x.member.(head := Some(next), steps := x.member.steps[base.stepIndex := result])
              && plan.outcome == Completed(next, if next.terminal then [] else [StepStage(next.stage, next)])
  {
    LoadsBase(engine, x);
    var rt, base := GepaRuntime(engine, output), Base(x);
    assert UnresolvedStep(x.member, base).None?;
    assert PlanOf(engine, x, Step(output, claimed)) == FreshPlan(rt, x.member, base);
    if output.Defer? && output.intents != [] {
      FreshDefers(rt, x.member, base);
    } else {
      FreshFinishes(rt, x.member, base);
    }
  }

  /** The step may follow the bound results. */
  predicate MayFollow(m: Member, base: WorkState) {
    && base.stepIndex !in m.steps && base.stepIndex !in m.deferred && base.intents == []
    && |base.steps| == base.stepIndex
    && (base.stepIndex > 0 ==>
          && base.stepIndex - 1 in m.steps && m.steps[base.stepIndex - 1] == base.steps[base.stepIndex - 1]
          && m.steps[base.stepIndex - 1].continues)
  }

  lemma FreshDefers(rt: Runtime, m: Member, base: WorkState)
    requires MayFollow(m, base)
    requires DeferredOf(rt, RequestOf(rt, base)) != [] && AllKnown(rt.engine, DeferredOf(rt, RequestOf(rt, base)))
    ensures var intents, result := DeferredOf(rt, RequestOf(rt, base)), ResultOf(rt, RequestOf(rt, base));
            var parked := Parked(rt.engine, base, intents, base.stage, result);
            && FreshPlan(rt, m, base).outcome == Completed(parked, Emitted(rt.engine, intents, base.stage, parked))
            && After(m, FreshPlan(rt, m, base)) == m.(head := Some(parked))
  {
    var intents, result := DeferredOf(rt, RequestOf(rt, base)), ResultOf(rt, RequestOf(rt, base));
    assert Take(base.steps, base.stepIndex) == base.steps;
    DeferralWrites(m, base.stepIndex, intents, result, Parked(rt.engine, base, intents, base.stage, result));
  }

  lemma FreshFinishes(rt: Runtime, m: Member, base: WorkState)
    requires MayFollow(m, base) && DeferredOf(rt, RequestOf(rt, base)) == []
    ensures var result := ResultOf(rt, RequestOf(rt, base));
            var next := Advanced(base, result);
            && FreshPlan(rt, m, base).outcome == Completed(next, if next.terminal then [] else [StepStage(next.stage, next)])
            && After(m, FreshPlan(rt, m, base)) == m.(head := Some(next), steps := m.steps[base.stepIndex := result])
  {
    var at, result := base.stepIndex, ResultOf(rt, RequestOf(rt, base));
    var next := Advanced(base, result);
    var twice := [BindStep(at, result), BindStep(at, result)];
    assert FreshPlan(rt, m, base).writes == twice + Rebind(next);
    ApplyTwo(m, BindStep(at, result), BindStep(at, result));
    RebindSetsHead(m, twice, next);
  }

  /** Recording a deferral parks the head and leaves neither the placeholder nor its intents. */
  lemma RecordingWrites(m: Member, at: nat, intents: seq<Intent>, parked: WorkState)
    requires at in m.deferred && m.deferred[at] == intents
    ensures ApplyAll(m, [BindDeferred(at, intents)] + Rebind(parked) + [EvictStep(at), EvictDeferred(at)])
            == m.(head := Some(parked), steps := m.steps - {at}, deferred := m.deferred - {at})
  {
    var bind := [BindDeferred(at, intents)];
    ApplyOne(m, bind[0]);
    assert m.deferred[at := intents] == m.deferred;
    RebindSetsHead(m, bind, parked);
    ApplyAllConcat(m, bind + Rebind(parked), [EvictStep(at), EvictDeferred(at)]);
    ApplyTwo(m.(head := Some(parked)), EvictStep(at), EvictDeferred(at));
  }

  /** A whole deferral leaves nothing but the parked head. */
  lemma DeferralWrites(m: Member, at: nat, intents: seq<Intent>, result: StepResult, parked: WorkState)
    requires at !in m.steps && at !in m.deferred
    ensures var run := [BindDeferred(at, intents), BindStep(at, result)];
            var rest := [BindDeferred(at, intents)] + Rebind(parked) + [EvictStep(at), EvictDeferred(at)];
            && ApplyAll(m, run) == m.(steps := m.steps[at := result], deferred := m.deferred[at := intents])
            && ApplyAll(m, run + rest) == m.(head := Some(parked))
  {
    var run := [BindDeferred(at, intents), BindStep(at, result)];
    ApplyTwo(m, run[0], run[1]);
    ApplyAllConcat(m, run, [BindDeferred(at, intents)] + Rebind(parked) + [EvictStep(at), EvictDeferred(at)]);
    RecordingWrites(ApplyAll(m, run), at, intents, parked);
    assert m.steps[at := result] - {at} == m.steps;
    assert m.deferred[at := intents] - {at} == m.deferred;
  }

  /** A step on a parked head emits the same fan-out again and changes nothing. */
  lemma ParkedStep(engine: Engine, x: Machine, output: Output, claimed: Option<nat>)
    requires Inv(engine, x) && Base(x).pending.Some?
    requires Possible(engine, x, Step(output, claimed)) && StageAgrees(claimed, Base(x).origin.value)
    ensures var base, plan := Base(x), PlanOf(engine, x, Step(output, claimed));
            && After(x.member, plan) == x.member
            && plan.outcome == Completed(base, Emitted(engine, base.intents, base.origin.value, base))
            && JoinsOf(Emitted(engine, base.intents, base.origin.value, base)) == [x.joins[|x.joins| - 1]]
  {
    ResumeWrites(x.member, Base(x));
    var last := x.joins[|x.joins| - 1];
    assert JoinOk(last) && FansOut(engine, last);
    EmittedJoins(engine, Base(x).intents, Base(x).origin.value, Base(x));
  }

  lemma ResumeWrites(m: Member, base: WorkState)
    requires m.head == Some(base) && m.deferred == map[]
    ensures ApplyAll(m, Rebind(base) + [EvictDeferred(base.stepIndex)]) == m
  {
    RebindSetsHead(m, [], base);
    assert [] + Rebind(base) == Rebind(base);
    ApplyAllConcat(m, Rebind(base), [EvictDeferred(base.stepIndex)]);
    ApplyOne(m, EvictDeferred(base.stepIndex));
  }

  /** Which of the cases a replayed fan-in is in. */
  lemma FaninCase(x: Machine, episode: nat)
    requires Core(x) && episode < |x.joins|
    ensures var join, head := x.joins[episode], x.member.head.value;
            if head == join.state || head == Resumption(join) then
              && !HeadIsLater(head, join.state.stepIndex, join.origin, join.state.stage)
              && Resumed(x.member, join) == Resumption(join) && episode == |x.joins| - 1
            else HeadIsLater(head, join.state.stepIndex, join.origin, join.state.stage)
  {
    var join, last, head := x.joins[episode], x.joins[|x.joins| - 1], x.member.head.value;
    assert JoinOk(join) && JoinOk(last) && HeadOk(head, x.joins);
    if episode < |x.joins| - 1 {
      assert join.state.stage + 1 <= last.origin && join.state.stepIndex <= last.state.stepIndex;
    } else if head == join.state || head == Resumption(join) {
      assert Take(join.state.steps, join.state.stepIndex) == join.state.steps;
    }
  }

  lemma FaninWrites(m: Member, bind: seq<Write>, join: Join, found: seq<nat>, at: nat, next: WorkState)
    requires bind == [] || bind == [BindFanin(join, found)]
    requires at !in m.deferred
    ensures var m1 := ApplyAll(m, bind);
            && m1 == m.(fanins := m1.fanins)
            && ApplyAll(m, bind + [EvictDeferred(at)] + Rebind(next)) == m1.(head := Some(next))
  {
    ApplyOne(m, BindFanin(join, found));
    ApplyAllConcat(m, bind, [EvictDeferred(at)]);
    ApplyOne(ApplyAll(m, bind), EvictDeferred(at));
    RebindSetsHead(m, bind + [EvictDeferred(at)], next);
    assert m.deferred - {at} == m.deferred;
  }

  /** What a fan-in of any episode does: the latest one resumes a head parked on it, repeats its report while
      the head is where it left it, and any other finds the head moved on and leaves it alone. */
  lemma FaninVerdict(engine: Engine, x: Machine, e: Event)
    requires Inv(engine, x) && e.Fanin? && Possible(engine, x, e)
    ensures var plan, join, head := PlanOf(engine, x, e), x.joins[e.episode], x.member.head.value;
            !plan.outcome.Failed? ==>
              if head == join.state || head == Resumption(join) then
                && After(x.member, plan).head == Some(Resumption(join))
                && plan.outcome == Merged(join, StepSuccessor(Resumption(join)))
              else
                && After(x.member, plan).head == Some(head)
                && plan.outcome == Merged(join, [])
    ensures var plan := PlanOf(engine, x, e);
            && After(x.member, plan) == x.member.(head := After(x.member, plan).head, fanins := After(x.member, plan).fanins)
            && (plan.outcome.Failed? ==> After(x.member, plan) == x.member)
  {
    var join := x.joins[e.episode];
    FaninCase(x, e.episode);
    FaninOutcome(GepaRuntime(engine, Finish(true, 0)), x.member, join, e.found, e.claimed);
  }

  /** A GEPA fan-in by the verdict on its head. */
  lemma FaninOutcome(rt: Runtime, m: Member, join: Join, found: seq<nat>, claimed: Option<nat>)
    requires rt.gepa && m.deferred == map[]
    ensures var plan := FaninPlan(rt, m, join, found, claimed);
            && (plan.outcome.Failed? ==> After(m, plan) == m)
            && (!plan.outcome.Failed? ==>
                  plan.outcome == Merged(join, if IsStale(rt, m, join) then [] else StepSuccessor(Resumed(m, join)))
                  && After(m, plan) == m.(head := if IsStale(rt, m, join) then m.head else Some(Resumed(m, join)),
                                          fanins := After(m, plan).fanins))
  {
    var bind := if join in m.fanins then [] else [BindFanin(join, found)];
    FaninWrites(m, bind, join, found, join.state.stepIndex, Resumed(m, join));
  }

  /** Parking the head on a new episode. */
  lemma ParkKeepsCore(x: Machine, join: Join)
    requires Core(x) && Base(x).pending.None? && !Base(x).terminal && JoinOk(join)
    requires join.origin == Base(x).stage && join.state.stepIndex == Base(x).stepIndex && join.state.steps == Base(x).steps
    ensures Core(Machine(x.start, x.member.(head := Some(join.state)), x.joins + [join]))
    ensures x.joins != [] ==> x.joins[|x.joins| - 1] != join
  {
    if x.joins != [] {
      assert JoinOk(x.joins[|x.joins| - 1]);
    }
    OrderedAppend(x.joins, join);
    assert ChainBound(x.member, Base(x));
    assert ChainBound(x.member.(head := Some(join.state)), join.state);
  }

  lemma ParkKeepsInv(engine: Engine, x: Machine, intents: seq<Intent>, parked: WorkState, result: StepResult)
    requires Inv(engine, x) && Base(x).pending.None? && !Base(x).terminal && intents != [] && AllKnown(engine, intents)
    requires parked == Parked(engine, Base(x), intents, Base(x).stage, result)
    ensures var join := JoinOf(engine, intents, Base(x).stage, parked);
            && Inv(engine, Machine(x.start, x.member.(head := Some(parked)), x.joins + [join]))
            && (x.joins != [] ==> x.joins[|x.joins| - 1] != join)
  {
    LoadsBase(engine, x);
    var join := JoinOf(engine, intents, Base(x).stage, parked);
    ParkKeepsCore(x, join);
    assert FansOut(engine, join);
  }

  lemma OrderedAppend(joins: seq<Join>, join: Join)
    requires JoinsOk(joins) && JoinsOrdered(joins) && JoinOk(join)
    requires joins != [] ==>
               joins[|joins| - 1].state.stage + 1 <= join.origin && joins[|joins| - 1].state.stepIndex <= join.state.stepIndex
    ensures JoinsOk(joins + [join]) && JoinsOrdered(joins + [join])
  {
    var all := joins + [join];
    forall i, j | 0 <= i < j < |all|
      ensures all[i].state.stage + 1 <= all[j].origin && all[i].state.stepIndex <= all[j].state.stepIndex
    {
      if j == |joins| && i < j - 1 {
        assert JoinOk(joins[j - 1]);
        assert joins[i].state.stage + 1 <= joins[j - 1].origin;
      }
    }
  }

  lemma AdvanceKeepsInv(engine: Engine, x: Machine, result: StepResult)
    requires Inv(engine, x) && Base(x).pending.None? && !Base(x).terminal
    ensures var next := Advanced(Base(x), result);
            Inv(engine, x.(member := x.member.(head := Some(next), steps := x.member.steps[Base(x).stepIndex := result])))
  {
    LoadsBase(engine, x);
    ChainGrows(x.member, Base(x), result);
    if x.joins != [] {
      assert JoinOk(x.joins[|x.joins| - 1]);
    }
  }

  lemma ChainGrows(m: Member, base: WorkState, result: StepResult)
    requires ChainBound(m, base) && !base.terminal
    ensures ChainBound(m.(head := Some(Advanced(base, result)), steps := m.steps[base.stepIndex := result]), Advanced(base, result))
  {
  }

  /** What a step event does to the machine: nothing, park the head, or advance it. */
  function StepTo(engine: Engine, x: Machine, e: Event): Machine
    requires e.Step?
  {
    var base := Base(x);
    var result := ResultOf(GepaRuntime(engine, e.output), RequestOf(GepaRuntime(engine, e.output), base));
    if base.pending.Some? || base.terminal || !StageAgrees(e.claimed, base.stage) then x
    else if e.output.Defer? && e.output.intents != [] then
      var parked := Parked(engine, base, e.output.intents, base.stage, result);
      Machine(x.start, x.member.(head := Some(parked)), x.joins + [JoinOf(engine, e.output.intents, base.stage, parked)])
    else
      x.(member := x.member.(head := Some(Advanced(base, result)), steps := x.member.steps[base.stepIndex := result]))
  }

  lemma StepStays(engine: Engine, x: Machine, e: Event)
    requires Inv(engine, x) && e.Step? && Possible(engine, x, e)
    requires Base(x).pending.Some? || Base(x).terminal || !StageAgrees(e.claimed, Base(x).stage)
    ensures Do(engine, x, e) == x
    ensures var plan := PlanOf(engine, x, e);
            !plan.outcome.Merged? && (plan.outcome.Failed? ==> plan.outcome.why.WrongStageIndex? && After(x.member, plan) == x.member)
  {
    var base := Base(x);
    LoadsBase(engine, x);
    if base.pending.Some? {
      if StageAgrees(e.claimed, base.origin.value) {
        ParkedStep(engine, x, e.output, e.claimed);
      }
    } else if StageAgrees(e.claimed, base.stage) {
      RebindSetsHead(x.member, [], base);
      assert [] + Rebind(base) == Rebind(base);
    }
  }

  lemma StepDoes(engine: Engine, x: Machine, e: Event)
    requires Inv(engine, x) && e.Step? && Possible(engine, x, e)
    ensures Do(engine, x, e) == StepTo(engine, x, e)
    ensures var plan := PlanOf(engine, x, e);
            !plan.outcome.Merged? && (plan.outcome.Failed? ==> plan.outcome.why.WrongStageIndex? && After(x.member, plan) == x.member)
  {
    var base := Base(x);
    if base.pending.Some? || base.terminal || !StageAgrees(e.claimed, base.stage) {
      StepStays(engine, x, e);
    } else {
      UnparkedStep(engine, x, e.output, e.claimed);
      if e.output.Defer? && e.output.intents != [] {
        var result := ResultOf(GepaRuntime(engine, e.output), RequestOf(GepaRuntime(engine, e.output), base));
        var parked := Parked(engine, base, e.output.intents, base.stage, result);
        ParkKeepsInv(engine, x, e.output.intents, parked, result);
        EmittedJoins(engine, e.output.intents, base.stage, parked);
      }
    }
  }

  lemma StepKeepsInv(engine: Engine, x: Machine, e: Event)
    requires Inv(engine, x) && e.Step? && Possible(engine, x, e)
    ensures Inv(engine, StepTo(engine, x, e))
  {
    var base := Base(x);
    var result := ResultOf(GepaRuntime(engine, e.output), RequestOf(GepaRuntime(engine, e.output), base));
    if !(base.pending.Some? || base.terminal || !StageAgrees(e.claimed, base.stage)) {
      if e.output.Defer? && e.output.intents != [] {
        ParkKeepsInv(engine, x, e.output.intents, Parked(engine, base, e.output.intents, base.stage, result), result);
      } else {
        AdvanceKeepsInv(engine, x, result);
      }
    }
  }

  lemma EmittedJoins(engine: Engine, intents: seq<Intent>, origin: nat, state: WorkState)
    requires intents != []
    ensures JoinsOf(Emitted(engine, intents, origin, state)) == [JoinOf(engine, intents, origin, state)]
  {
  }

  lemma RowKeepsInv(engine: Engine, x: Machine, e: Event)
    requires Inv(engine, x) && e.Row?
    ensures Do(engine, x, e) == x.(member := x.member.(rows := Do(engine, x, e).member.rows))
    ensures Inv(engine, Do(engine, x, e))
  {
    ApplyOne(x.member, BindRow(e.row));
  }

  lemma DoKeepsInv(engine: Engine, x: Machine, e: Event)
    requires Inv(engine, x) && Possible(engine, x, e)
    ensures Inv(engine, Do(engine, x, e))
  {
    match e
    case Step(_, _) =>
      StepDoes(engine, x, e);
      StepKeepsInv(engine, x, e);
    case Row(_, _) => RowKeepsInv(engine, x, e);
    case Fanin(_, _, _) => FaninKeepsInv(engine, x, e);
  }

  lemma FaninKeepsInv(engine: Engine, x: Machine, e: Event)
    requires Inv(engine, x) && e.Fanin? && Possible(engine, x, e)
    ensures Inv(engine, Do(engine, x, e))
  {
    FaninVerdict(engine, x, e);
    FaninCase(x, e.episode);
    var y := Do(engine, x, e);
    assert y == x.(member := x.member.(head := y.member.head, fanins := y.member.fanins));
    if y.member.head == x.member.head {
      SameHeadKeepsCore(x, y.member);
    } else {
      ResumingKeepsCore(x, y.member, x.joins[e.episode]);
    }
  }

  lemma SameHeadKeepsCore(x: Machine, m: Member)
    requires Core(x) && m == x.member.(fanins := m.fanins)
    ensures Core(x.(member := m))
  {
    if m.head.Some? {
      assert ChainBound(m, m.head.value);
    }
  }

  lemma ResumingKeepsCore(x: Machine, m: Member, join: Join)
    requires Core(x) && x.joins != [] && join == x.joins[|x.joins| - 1] && x.member.head == Some(join.state)
    requires m == x.member.(head := Some(Resumption(join)), fanins := m.fanins)
    ensures Core(x.(member := m))
  {
    assert JoinOk(join);
    assert ChainBound(m, Resumption(join));
  }

  lemma {:induction false} RunKeepsInv(engine: Engine, x: Machine, events: seq<Event>)
    requires Inv(engine, x) && Sound(engine, x, events)
    ensures Inv(engine, Run(engine, x, events))
    decreases events
  {
    if events != [] {
      DoKeepsInv(engine, x, events[0]);
      RunKeepsInv(engine, Do(engine, x, events[0]), events[1..]);
    }
  }

  // ---------------------------------------------------------------- whole runs

  ghost predicate Reachable(engine: Engine, x: Machine) {
    exists events :: Sound(engine, Init(x.start), events) && Run(engine, Init(x.start), events) == x
  }

  lemma ReachableInv(engine: Engine, x: Machine)
    requires Reachable(engine, x)
    ensures Inv(engine, x)
  {
    var events :| Sound(engine, Init(x.start), events) && Run(engine, Init(x.start), events) == x;
    RunKeepsInv(engine, Init(x.start), events);
  }

  function HeadStage(x: Machine): nat {
    Base(x).stage
  }

  /** The possible fates of the head in one event. */
  lemma HeadMoves(engine: Engine, x: Machine, e: Event)
    requires Inv(engine, x) && Possible(engine, x, e)
    ensures var y := Do(engine, x, e);
            || (y.member.head == x.member.head && y.joins == x.joins)
            || (y.member.head.Some? && y.member.head.value.pending.None? && y.joins == x.joins && HeadStage(y) >= HeadStage(x)
                && (e.Step? ==> Base(x).pending.None?))
            || (e.Step? && Base(x).pending.None? && |y.joins| == |x.joins| + 1 && y.joins[..|x.joins|] == x.joins
                && y.member.head == Some(y.joins[|x.joins|].state) && HeadStage(y) >= HeadStage(x))
    ensures !(e.Step? || e.Fanin?) ==> Do(engine, x, e).member.head == x.member.head
  {
    match e
    case Step(_, _) => StepMoves(engine, x, e);
    case Row(_, _) => RowKeepsInv(engine, x, e);
    case Fanin(_, _, _) =>
      FaninVerdict(engine, x, e);
      FaninCase(x, e.episode);
  }

  ghost predicate StepMove(x: Machine, y: Machine) {
    || (y.member.head == x.member.head && y.joins == x.joins)
    || (y.member.head.Some? && y.member.head.value.pending.None? && y.joins == x.joins && HeadStage(y) >= HeadStage(x)
        && Base(x).pending.None?)
    || (Base(x).pending.None? && |y.joins| == |x.joins| + 1 && y.joins[..|x.joins|] == x.joins
        && y.member.head == Some(y.joins[|x.joins|].state) && HeadStage(y) >= HeadStage(x))
  }

  lemma StepMoves(engine: Engine, x: Machine, e: Event)
    requires Inv(engine, x) && e.Step? && Possible(engine, x, e)
    ensures StepMove(x, Do(engine, x, e))
  {
    StepDoes(engine, x, e);
  }

  /** Over every run, the stage of the head never decreases. */
  lemma {:induction false} StageNeverDecreases(engine: Engine, x: Machine, events: seq<Event>)
    requires Reachable(engine, x) && Sound(engine, x, events)
    ensures HeadStage(Run(engine, x, events)) >= HeadStage(x)
  {
    ReachableInv(engine, x);
    StageNeverDecreasesFrom(engine, x, events);
  }

  lemma {:induction false} StageNeverDecreasesFrom(engine: Engine, x: Machine, events: seq<Event>)
    requires Inv(engine, x) && Sound(engine, x, events)
    ensures HeadStage(Run(engine, x, events)) >= HeadStage(x)
    decreases events
  {
    if events != [] {
      HeadMoves(engine, x, events[0]);
      DoKeepsInv(engine, x, events[0]);
      StageNeverDecreasesFrom(engine, Do(engine, x, events[0]), events[1..]);
    }
  }

  /** In every reachable state no stage meets a binding conflict: a step fails only on a wrong stage index,
      and a failing stage writes nothing. */
  lemma StagesNeverConflict(engine: Engine, x: Machine, e: Event)
    requires Reachable(engine, x) && Possible(engine, x, e)
    ensures var plan := PlanOf(engine, x, e);
            plan.outcome.Failed? ==>
              && After(x.member, plan) == x.member
              && (plan.outcome.why == WrongStageIndex || (e.Fanin? && plan.outcome.why in {RowsMissing, NoRows}))
  {
    ReachableInv(engine, x);
    if e.Step? {
      StepDoes(engine, x, e);
    } else if e.Fanin? {
      FaninVerdict(engine, x, e);
      FaninFailures(engine, x, e);
    }
  }

  lemma FaninFailures(engine: Engine, x: Machine, e: Event)
    requires Inv(engine, x) && e.Fanin? && Possible(engine, x, e)
    ensures var plan := PlanOf(engine, x, e);
            plan.outcome.Failed? ==> plan.outcome.why in {WrongStageIndex, RowsMissing, NoRows}
  {
    assert JoinOk(x.joins[e.episode]);
  }

  /** A fan-in in any reachable state, whichever episode it replays: the first of the latest episode resumes
      the head, a repeat reports the same successor and leaves the head where it is, and any other leaves the
      head alone and reports no successor. */
  lemma ReplayedFanins(engine: Engine, x: Machine, e: Event)
    requires Reachable(engine, x) && e.Fanin? && Possible(engine, x, e)
    ensures var plan, join, y := PlanOf(engine, x, e), x.joins[e.episode], Do(engine, x, e);
            !plan.outcome.Failed? ==>
              && plan.outcome.Merged? && y.joins == x.joins
              && (if x.member.head in {Some(join.state), Some(Resumption(join))} then
                    && e.episode == |x.joins| - 1
                    && y.member.head == Some(Resumption(join))
                    && plan.outcome.next == [StepStage(Resumption(join).stage, Resumption(join))]
                  else
                    y.member.head == x.member.head && plan.outcome.next == [])
  {
    ReachableInv(engine, x);
    FaninVerdict(engine, x, e);
    FaninCase(x, e.episode);
  }

  predicate ResumesIn(x: Machine, y: Machine, join: Join) {
    x.member.head == Some(join.state) && y.member.head != Some(join.state)
  }

  /** How often a run takes the head off an episode it is parked on. */
  function Resumptions(engine: Engine, x: Machine, events: seq<Event>, join: Join): nat
    requires Sound(engine, x, events)
    decreases events
  {
    if events == [] then 0
    else
      var y := Do(engine, x, events[0]);
      (if ResumesIn(x, y, join) then 1 else 0) + Resumptions(engine, y, events[1..], join)
  }

  predicate Merges(engine: Engine, x: Machine, e: Event, join: Join)
    requires Possible(engine, x, e)
  {
    e.Fanin? && x.joins[e.episode] == join && !PlanOf(engine, x, e).outcome.Failed?
  }

  /** Some fan-in of the episode succeeds in the run. */
  ghost predicate FansIn(engine: Engine, x: Machine, events: seq<Event>, join: Join)
    requires Sound(engine, x, events)
    decreases events
  {
    events != [] && (Merges(engine, x, events[0], join) || FansIn(engine, Do(engine, x, events[0]), events[1..], join))
  }

  /** The head has left the episode for good. */
  lemma {:induction false} NeverResumedAgain(engine: Engine, x: Machine, events: seq<Event>, join: Join)
    requires Inv(engine, x) && Sound(engine, x, events)
    requires join in x.joins && x.member.head != Some(join.state)
    ensures Resumptions(engine, x, events, join) == 0
    decreases events
  {
    if events != [] {
      var y := Do(engine, x, events[0]);
      DoKeepsInv(engine, x, events[0]);
      HeadMoves(engine, x, events[0]);
      assert y.member.head != Some(join.state) by {
        var i :| 0 <= i < |x.joins| && x.joins[i] == join;
        assert JoinOk(join);
        if |y.joins| > |x.joins| {
          assert y.joins[i] == join && JoinOk(y.joins[|x.joins|]);
          assert y.joins[i].state.stage + 1 <= y.joins[|x.joins|].origin;
        }
      }
      assert join in y.joins;
      NeverResumedAgain(engine, y, events[1..], join);
    }
  }

  lemma {:induction false} ResumedWhileParked(engine: Engine, x: Machine, events: seq<Event>, join: Join)
    requires Inv(engine, x) && Sound(engine, x, events)
    requires join in x.joins && x.member.head == Some(join.state)
    ensures Resumptions(engine, x, events, join) == if FansIn(engine, x, events, join) then 1 else 0
    decreases events
  {
    if events != [] {
      var e, y := events[0], Do(engine, x, events[0]);
      var i :| 0 <= i < |x.joins| && x.joins[i] == join;
      assert JoinOk(join);
      DoKeepsInv(engine, x, e);
      HeadMoves(engine, x, e);
      assert join in y.joins;
      if e.Fanin? {
        FaninVerdict(engine, x, e);
        FaninCase(x, e.episode);
        FaninCase(x, i);
      }
      assert Merges(engine, x, e, join) <==> y.member.head != Some(join.state);
      if Merges(engine, x, e, join) {
        NeverResumedAgain(engine, y, events[1..], join);
      } else {
        ResumedWhileParked(engine, y, events[1..], join);
      }
    }
  }

  lemma NotParkedYet(engine: Engine, x: Machine, join: Join)
    requires Inv(engine, x) && JoinOk(join) && FansOut(engine, join) && join !in x.joins
    ensures x.member.head != Some(join.state)
  {
    if x.joins != [] {
      assert JoinOk(x.joins[|x.joins| - 1]) && FansOut(engine, x.joins[|x.joins| - 1]);
    }
  }

  lemma {:induction false} ResumedOnceFrom(engine: Engine, x: Machine, events: seq<Event>, join: Join)
    requires Inv(engine, x) && Sound(engine, x, events)
    requires JoinOk(join) && FansOut(engine, join) && join !in x.joins
    ensures Resumptions(engine, x, events, join) == if FansIn(engine, x, events, join) then 1 else 0
    decreases events
  {
    if events != [] {
      var y := Do(engine, x, events[0]);
      DoKeepsInv(engine, x, events[0]);
      HeadMoves(engine, x, events[0]);
      NotParkedYet(engine, x, join);
      if join in y.joins {
        assert |y.joins| > |x.joins|;
        assert y.joins[|x.joins|] == join;
        ResumedWhileParked(engine, y, events[1..], join);
      } else {
        ResumedOnceFrom(engine, y, events[1..], join);
      }
    }
  }

  /** Over every run from the start and for every episode it emits, the head is taken off the episode exactly
      once if some fan-in of it succeeds, however often and in whatever order fan-ins are replayed, and never
      otherwise. */
  lemma EachEpisodeResumesOnce(engine: Engine, start: nat, events: seq<Event>, episode: nat)
    requires Sound(engine, Init(start), events) && episode < |Run(engine, Init(start), events).joins|
    ensures var join := Run(engine, Init(start), events).joins[episode];
            Resumptions(engine, Init(start), events, join) == if FansIn(engine, Init(start), events, join) then 1 else 0
  {
    RunKeepsInv(engine, Init(start), events);
    var join := Run(engine, Init(start), events).joins[episode];
    assert JoinOk(join) && FansOut(engine, join);
    ResumedOnceFrom(engine, Init(start), events, join);
  }

  // ---------------------------------------------------------------- what a step and a fan-in leave, field by field

  /** From every reachable unparked head, an answer that finishes the step binds a result that answers the head's
      own request and carries the answer; the head moves on by one stage and one step, it is terminal exactly
      when the optimizer does not continue, and then nothing follows.  A deferral without intents is an answer
      that continues. */
  lemma FinishingStep(engine: Engine, x: Machine, output: Output, continues: bool, claimed: Option<nat>)
    requires Reachable(engine, x) && Base(x).pending.None? && !Base(x).terminal && StageAgrees(claimed, Base(x).stage)
    requires output == Finish(continues, output.evidence) || (continues && output == Defer([], output.evidence))
    ensures var base, k := Base(x), Base(x).stepIndex;
            var plan := PlanOf(engine, x, Step(output, claimed));
            var result := StepResult(Request(Some(base.stage), k, base.steps), continues, [], output.evidence);
            var next := WorkState(base.stage + 1, k + 1, base.steps + [result], !continues, None, None, []);
            && k !in x.member.steps
            && After(x.member, plan) == x.member.(head := Some(next), steps := x.member.steps[k := result])
            && plan.outcome == Completed(next, if continues then [StepStage(base.stage + 1, next)] else [])
  {
    ReachableInv(engine, x);
    FinishesOn(engine, x, output, continues, claimed, PlanOf(engine, x, Step(output, claimed)));
  }

  lemma FinishesOn(engine: Engine, x: Machine, output: Output, continues: bool, claimed: Option<nat>, plan: Plan)
    requires Inv(engine, x) && Base(x).pending.None? && !Base(x).terminal && StageAgrees(claimed, Base(x).stage)
    requires output == Finish(continues, output.evidence) || (continues && output == Defer([], output.evidence))
    requires plan == PlanOf(engine, x, Step(output, claimed))
    ensures var base, k := Base(x), Base(x).stepIndex;
            var result := StepResult(Request(Some(base.stage), k, base.steps), continues, [], output.evidence);
            var next := WorkState(base.stage + 1, k + 1, base.steps + [result], !continues, None, None, []);
            && k !in x.member.steps
            && After(x.member, plan) == x.member.(head := Some(next), steps := x.member.steps[k := result])
            && plan.outcome == Completed(next, if continues then [StepStage(base.stage + 1, next)] else [])
  {
    LoadsBase(engine, x);
    UnparkedStep(engine, x, output, claimed);
  }

  /** A deferral with intents parks the head on the barrier of its fan-out, with a pending result that continues,
      answers the head's own request and carries the answer's evidence; nothing else is bound. */
  lemma DeferringStep(engine: Engine, x: Machine, intents: seq<Intent>, evidence: nat, claimed: Option<nat>)
    requires Reachable(engine, x) && Base(x).pending.None? && !Base(x).terminal && StageAgrees(claimed, Base(x).stage)
    requires intents != [] && AllKnown(engine, intents)
    ensures var base := Base(x);
            var plan := PlanOf(engine, x, Step(Defer(intents, evidence), claimed));
            var pending := StepResult(Request(Some(base.stage), base.stepIndex, base.steps), true, [], evidence);
            var parked := ParkedOn(engine, base, intents, pending);
            && After(x.member, plan) == x.member.(head := Some(parked))
            && plan.outcome == Completed(parked, Emitted(engine, intents, base.stage, parked))
  {
    ReachableInv(engine, x);
    DefersOn(engine, x, Defer(intents, evidence), claimed, PlanOf(engine, x, Step(Defer(intents, evidence), claimed)));
  }

  lemma DefersOn(engine: Engine, x: Machine, output: Output, claimed: Option<nat>, plan: Plan)
    requires Inv(engine, x) && Base(x).pending.None? && !Base(x).terminal && StageAgrees(claimed, Base(x).stage)
    requires output.Defer? && output.intents != [] && AllKnown(engine, output.intents)
    requires plan == PlanOf(engine, x, Step(output, claimed))
    ensures var base := Base(x);
            var pending := StepResult(Request(Some(base.stage), base.stepIndex, base.steps), true, [], output.evidence);
            var parked := ParkedOn(engine, base, output.intents, pending);
            && After(x.member, plan) == x.member.(head := Some(parked))
            && plan.outcome == Completed(parked, Emitted(engine, output.intents, base.stage, parked))
  {
    UnparkedStep(engine, x, output, claimed);
  }

  /** The parked state written out: the same step at the barrier behind the rows. */
  function ParkedOn(engine: Engine, base: WorkState, intents: seq<Intent>, pending: StepResult): (parked: WorkState)
    ensures parked == Parked(engine, base, intents, base.stage, pending)
  {
    WorkState(base.stage + RowCount(engine, intents) + 1, base.stepIndex, base.steps, false, Some(pending), Some(base.stage), intents)
  }

  /** A step stage that is called at another stage than its head's is refused; one on a terminal head reports it
      again without a successor; one on a parked head emits its fan-out again.  None of them changes anything. */
  lemma StepsAside(engine: Engine, x: Machine, output: Output, claimed: Option<nat>)
    requires Reachable(engine, x) && Possible(engine, x, Step(output, claimed))
    ensures var base, plan := Base(x), PlanOf(engine, x, Step(output, claimed));
            var expected := if base.pending.Some? && base.origin.Some? then base.origin.value else base.stage;
            && (plan.outcome == Failed(WrongStageIndex) <==> claimed.Some? && claimed.value != expected)
            && (plan.outcome.Failed? || base.terminal || base.pending.Some? ==> After(x.member, plan) == x.member)
            && (!plan.outcome.Failed? && base.terminal ==> plan.outcome == Completed(base, []))
            && (!plan.outcome.Failed? && base.pending.Some? ==>
                  base.intents != [] && plan.outcome == Completed(base, Emitted(engine, base.intents, expected, base)))
  {
    ReachableInv(engine, x);
    AsideOn(engine, x, output, claimed, PlanOf(engine, x, Step(output, claimed)));
  }

  lemma AsideOn(engine: Engine, x: Machine, output: Output, claimed: Option<nat>, plan: Plan)
    requires Inv(engine, x) && Possible(engine, x, Step(output, claimed)) && plan == PlanOf(engine, x, Step(output, claimed))
    ensures var base := Base(x);
            var expected := if base.pending.Some? && base.origin.Some? then base.origin.value else base.stage;
            && (plan.outcome == Failed(WrongStageIndex) <==> claimed.Some? && claimed.value != expected)
            && (plan.outcome.Failed? || base.terminal || base.pending.Some? ==> After(x.member, plan) == x.member)
            && (!plan.outcome.Failed? && base.terminal ==> plan.outcome == Completed(base, []))
            && (!plan.outcome.Failed? && base.pending.Some? ==>
                  base.intents != [] && plan.outcome == Completed(base, Emitted(engine, base.intents, expected, base)))
  {
    var base := Base(x);
    LoadsBase(engine, x);
    StepDoes(engine, x, Step(output, claimed));
    if base.pending.Some? {
      assert base.origin.Some?;
      if StageAgrees(claimed, base.origin.value) { ParkedStep(engine, x, output, claimed); }
    } else if StageAgrees(claimed, base.stage) {
      if base.terminal {
        RebindSetsHead(x.member, [], base);
        assert [] + Rebind(base) == Rebind(base);
      } else {
        UnparkedStep(engine, x, output, claimed);
      }
    }
  }

  /** A row stage binds its row once, at the stage of its ordinal, and never touches anything else. */
  lemma RowBindsOnce(m: Member, row: RowInput, claimed: Option<nat>)
    ensures var plan := RowPlan(m, row, claimed);
            var here := claimed.None? || claimed.value == row.origin + 1 + row.ordinal;
            && After(m, plan) == (if here then m.(rows := m.rows + {row}) else m)
            && plan.outcome == (if row in m.rows || here then Completed(row.state, []) else Failed(WrongStageIndex))
  {
    ApplyOne(m, BindRow(row));
    assert row in m.rows ==> m.rows + {row} == m.rows;
  }

  /** Every row of the episode is bound. */
  predicate RowsBound(m: Member, join: Join) {
    forall row :: row in join.rows ==> row in m.rows
  }

  /** Taking the head off the episode binds the resolutions, keeps all step results and hands the same step on to
      the next stage. */
  predicate TakenOff(m: Member, after: Member, join: Join, found: seq<nat>, outcome: Outcome) {
    var state := join.state;
    var next := WorkState(state.stage + 1, state.stepIndex, state.steps, false, None, None, []);
    && after.head == Some(next) && after.steps == m.steps && after.rows == m.rows
    && after.fanins == m.fanins[join := if join in m.fanins then m.fanins[join] else found]
    && outcome == Merged(join, [StepStage(state.stage + 1, next)])
  }

  /** A fan-in of a GEPA episode succeeds exactly when it is called at its barrier and its rows are there, and
      then it takes the head off the episode that it is parked on. */
  lemma ResumingFanin(engine: Engine, x: Machine, e: Event)
    requires Reachable(engine, x) && e.Fanin? && Possible(engine, x, e)
    ensures var join, plan := x.joins[e.episode], PlanOf(engine, x, e);
            && (!plan.outcome.Failed? <==>
                  (e.claimed.None? || e.claimed.value == join.state.stage) && join.rows != [] && RowsBound(x.member, join))
            && (!plan.outcome.Failed? && x.member.head == Some(join.state) ==>
                  TakenOff(x.member, After(x.member, plan), join, e.found, plan.outcome))
  {
    ReachableInv(engine, x);
    FaninLeaves(engine, x, e, x.joins[e.episode], PlanOf(engine, x, e));
  }

  lemma FaninLeaves(engine: Engine, x: Machine, e: Event, join: Join, plan: Plan)
    requires Inv(engine, x) && e.Fanin? && Possible(engine, x, e) && join == x.joins[e.episode] && plan == PlanOf(engine, x, e)
    ensures !plan.outcome.Failed? <==>
              (e.claimed.None? || e.claimed.value == join.state.stage) && join.rows != [] && RowsBound(x.member, join)
    ensures !plan.outcome.Failed? && x.member.head == Some(join.state) ==>
              TakenOff(x.member, After(x.member, plan), join, e.found, plan.outcome)
  {
    assert JoinOk(join) && FansOut(engine, join);
    var rt := GepaRuntime(engine, Finish(true, 0));
    FaninSucceedsIff(rt, x.member, join, e.found, e.claimed);
    if !plan.outcome.Failed? && x.member.head == Some(join.state) {
      FaninTakesOff(rt, x.member, join, e.found, e.claimed, plan);
    }
  }

  lemma FaninSucceedsIff(rt: Runtime, m: Member, join: Join, found: seq<nat>, claimed: Option<nat>)
    requires rt.gepa && JoinOk(join) && FansOut(rt.engine, join)
    ensures !FaninPlan(rt, m, join, found, claimed).outcome.Failed? <==>
              && (claimed.None? || claimed.value == join.state.stage)
              && join.rows != [] && RowsBound(m, join)
  {
    FanOutAgrees(rt.engine, join.state, join.state.intents, join.origin, join.state.pending.value);
    assert |join.rows| == RowCount(rt.engine, join.state.intents);
  }

  lemma FaninTakesOff(rt: Runtime, m: Member, join: Join, found: seq<nat>, claimed: Option<nat>, plan: Plan)
    requires rt.gepa && m.deferred == map[] && JoinOk(join) && m.head == Some(join.state)
    requires plan == FaninPlan(rt, m, join, found, claimed) && !plan.outcome.Failed?
    ensures TakenOff(m, After(m, plan), join, found, plan.outcome)
  {
    var state := join.state;
    var next := WorkState(state.stage + 1, state.stepIndex, state.steps, false, None, None, []);
    var bind := if join in m.fanins then [] else [BindFanin(join, found)];
    assert Take(state.steps, state.stepIndex) == state.steps;
    assert Resumed(m, join) == next && !IsStale(rt, m, join);
    assert plan == Plan(bind + [EvictDeferred(state.stepIndex)] + Rebind(next), Merged(join, StepSuccessor(next)));
    ApplyOne(m, BindFanin(join, found));
    FaninWrites(m, bind, join, found, state.stepIndex, next);
    assert join in m.fanins ==> m.fanins[join := m.fanins[join]] == m.fanins;
  }

  // ---------------------------------------------------------------- deferrals that name unknown tasks

  /** Why `Possible` leaves them out: such a deferral fails when it is expanded, with the placeholder and its
      intents bound already, and so does every later step, whatever the optimizer would answer then. */
  lemma UnknownTasksStick(engine: Engine, x: Machine, output: Output, later: Output)
    requires Reachable(engine, x) && Base(x).pending.None? && !Base(x).terminal
    requires output.Defer? && output.intents != [] && !AllKnown(engine, output.intents)
    ensures var rt, at := GepaRuntime(engine, output), Base(x).stepIndex;
            var step := OptimPlan(rt, x.member, CurrentInput(x), None);
            var stuck := After(x.member, step);
            var again := OptimPlan(GepaRuntime(engine, later), stuck, CurrentInput(x), None);
            && step.outcome == again.outcome == Failed(UnknownTask)
            && stuck == x.member.(steps := x.member.steps[at := ResultOf(rt, RequestOf(rt, Base(x)))],
                                  deferred := x.member.deferred[at := output.intents])
            && After(stuck, again) == stuck
  {
    ReachableInv(engine, x);
    LoadsBase(engine, x);
    var rt, base, at := GepaRuntime(engine, output), Base(x), Base(x).stepIndex;
    assert UnresolvedStep(x.member, base).None?;
    UnknownFails(rt, x.member, base);
    var stuck := After(x.member, FreshPlan(rt, x.member, base));
    if x.member.head.None? {
      LoadsPlaceholder(stuck, x.start, ResultOf(rt, RequestOf(rt, base)));
    }
    StaysStuck(GepaRuntime(engine, later), stuck, CurrentInput(x), at);
  }

  lemma LoadsPlaceholder(m: Member, start: nat, placeholder: StepResult)
    requires m.head.None? && m.steps == map[][0 := placeholder] && placeholder.continues
    ensures Load(m, WorkInput(start)) == WorkState(start, 1, [placeholder], false, None, None, [])
  {
    assert [] + [placeholder] == [placeholder];
    assert Scan(m.steps, start, 0, []) == Scan(m.steps, start, 1, [placeholder]);
    assert Scan(m.steps, start, 1, [placeholder]) == WorkState(start, 1, [placeholder], false, None, None, []);
  }

  lemma UnknownFails(rt: Runtime, m: Member, base: WorkState)
    requires MayFollow(m, base)
    requires DeferredOf(rt, RequestOf(rt, base)) != [] && !AllKnown(rt.engine, DeferredOf(rt, RequestOf(rt, base)))
    ensures var at, result, intents := base.stepIndex, ResultOf(rt, RequestOf(rt, base)), DeferredOf(rt, RequestOf(rt, base));
            && FreshPlan(rt, m, base).outcome == Failed(UnknownTask)
            && After(m, FreshPlan(rt, m, base)) == m.(steps := m.steps[at := result], deferred := m.deferred[at := intents])
  {
    var at, result, intents := base.stepIndex, ResultOf(rt, RequestOf(rt, base)), DeferredOf(rt, RequestOf(rt, base));
    var run := [BindDeferred(at, intents), BindStep(at, result)];
    ApplyTwo(m, run[0], run[1]);
    var m1 := ApplyAll(m, run);
    assert FreshPlan(rt, m, base).writes == run + [BindDeferred(at, intents)];
    ApplyAllConcat(m, run, [BindDeferred(at, intents)]);
    ApplyOne(m1, BindDeferred(at, intents));
    assert m1.deferred[at := intents] == m1.deferred;
  }

  lemma StaysStuck(rt: Runtime, m: Member, input: Input, at: nat)
    requires Unresolved(m, at) && !AllKnown(rt.engine, m.deferred[at])
    requires var state := Load(m, input);
             && state.pending.None? && !state.terminal
             && (state.stepIndex == at || (state.stepIndex == at + 1 && at + 1 !in m.steps))
    ensures var again := OptimPlan(rt, m, input, None);
            again.outcome == Failed(UnknownTask) && After(m, again) == m
  {
    ApplyOne(m, BindDeferred(at, m.deferred[at]));
    assert m.deferred[at := m.deferred[at]] == m.deferred;
  }
}
