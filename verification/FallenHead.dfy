/** Runs of a member of an optimizer other than GEPA in which a replayed fan-in takes the head back. */
module FallenHead {
  import opened StageFanOut
  import opened StageMember
  import opened StageRun
  import opened StagePlainRun

  // ---------------------------------------------------------------- putting runs together

  ghost predicate PlainLeads(engine: Engine, x: Machine, y: Machine) {
    exists events :: Play(engine, x, events) == y
  }

  ghost predicate Leads(engine: Engine, x: Machine, y: Machine) {
    exists events :: OrderlyRun(engine, x, events) && Play(engine, x, events) == y
  }

  lemma AppendOne(engine: Engine, x: Machine, y: Machine, e: Event)
    requires PlainLeads(engine, x, y) && Allowed(engine, y, e)
    ensures PlainLeads(engine, x, Next(engine, y, e))
    ensures Leads(engine, x, y) && Orderly(y, e) ==> Leads(engine, x, Next(engine, y, e))
  {
    var before :| Play(engine, x, before) == y;
    PlaysOneMore(engine, x, before, e);
    if Leads(engine, x, y) && Orderly(y, e) {
      var orderly :| OrderlyRun(engine, x, orderly) && Play(engine, x, orderly) == y;
      PlaysOneMore(engine, x, orderly, e);
      assert (orderly + [e])[..|orderly + [e]| - 1] == orderly;
      assert OrderlyRun(engine, x, orderly + [e]);
    }
  }

  lemma Starts(engine: Engine, x: Machine)
    ensures PlainLeads(engine, x, x) && Leads(engine, x, x)
  {
    assert OrderlyRun(engine, x, []) && Play(engine, x, []) == x;
  }

  // ---------------------------------------------------------------- one episode from its rows to its merge

  lemma RowArrives(engine: Engine, y: Machine, row: RowInput)
    ensures var z := Next(engine, y, Row(row, None));
            z == y.(member := y.member.(rows := y.member.rows + {row}))
  {
    ApplyOne(y.member, BindRow(row));
  }

  /** The rows of an episode are published one after the other. */
  lemma {:induction false} RowsArrive(engine: Engine, x: Machine, y: Machine, rows: seq<RowInput>) returns (z: Machine)
    requires PlainLeads(engine, x, y)
    ensures PlainLeads(engine, x, z) && (Leads(engine, x, y) ==> Leads(engine, x, z))
    ensures z == y.(member := y.member.(rows := z.member.rows)) && y.member.rows <= z.member.rows
    ensures forall row :: row in rows ==> row in z.member.rows
  {
    if rows == [] {
      z := y;
    } else {
      var last := rows[|rows| - 1];
      var most := RowsArrive(engine, x, y, rows[..|rows| - 1]);
      AppendOne(engine, x, most, Row(last, None));
      RowArrives(engine, most, last);
      z := Next(engine, most, Row(last, None));
    }
  }

  /** What a fan-in needs: all rows, and no other result at its step. */
  predicate Resolvable(engine: Engine, m: Member, join: Join, found: seq<nat>) {
    && join.state.pending.Some? && RowCount(engine, join.state.intents) > 0 && |found| == |join.state.intents|
    && (forall row :: row in join.rows ==> row in m.rows)
    && (join.state.stepIndex in m.steps ==> m.steps[join.state.stepIndex] == MergedResult(join, Resolutions(m, join, found)))
  }

  /** What a completed fan-in leaves. */
  predicate Resolved(engine: Engine, m: Member, join: Join, found: seq<nat>) {
    Resolvable(engine, m, join, found) && join in m.fanins && join.state.stepIndex in m.steps
  }

  lemma FaninSucceeds(engine: Engine, x: Machine, episode: nat, found: seq<nat>)
    requires PlainInv(engine, x) && episode < |x.joins| && Resolvable(engine, x.member, x.joins[episode], found)
    ensures var e, join := Fanin(episode, found, None), x.joins[episode];
            var merged := MergedResult(join, Resolutions(x.member, join, found));
            && Allowed(engine, x, e) && !PlanFor(engine, x, e).outcome.Failed?
            && Next(engine, x, e) == x.(member := x.member.(
                 head := Some(MergedState(join, merged)), steps := x.member.steps[join.state.stepIndex := merged],
                 fanins := x.member.fanins[join := Resolutions(x.member, join, found)]))
            && Resolved(engine, Next(engine, x, e).member, join, found)
  {
    var join := x.joins[episode];
    assert JoinFits(engine, x.member.steps, join);
    assert !PlanFor(engine, x, Fanin(episode, found, None)).outcome.Failed?;
    FaninDoes(PlainRuntime(engine, Finish(true, 0)), x.member, join, found, None);
  }

  /** A fan-in of a completed episode puts the head on its merge and changes nothing else. */
  lemma ReplayLands(engine: Engine, x: Machine, episode: nat, found: seq<nat>)
    requires PlainInv(engine, x) && episode < |x.joins| && Resolved(engine, x.member, x.joins[episode], found)
    ensures var e, join := Fanin(episode, found, None), x.joins[episode];
            && Allowed(engine, x, e) && !PlanFor(engine, x, e).outcome.Failed?
            && Next(engine, x, e) == x.(member := x.member.(head := Some(Merge(x.member, join, found))))
  {
    FaninSucceeds(engine, x, episode, found);
    var m, join := x.member, x.joins[episode];
    var k := join.state.stepIndex;
    assert m.steps[k := m.steps[k]] == m.steps;
    assert m.fanins[join := m.fanins[join]] == m.fanins;
  }

  /** The rows and the fan-in of an episode that no other result stands in the way of. */
  lemma Resolve(engine: Engine, x: Machine, y: Machine, episode: nat, found: seq<nat>) returns (z: Machine)
    requires PlainLeads(engine, x, y) && PlainInv(engine, y) && episode < |y.joins|
    requires Resolvable(engine, y.member.(rows := y.member.rows + set row | row in y.joins[episode].rows), y.joins[episode], found)
    ensures PlainLeads(engine, x, z) && (Leads(engine, x, y) ==> Leads(engine, x, z))
    ensures PlainInv(engine, z) && z.start == y.start && z.joins == y.joins
    ensures var join, m := y.joins[episode], y.member;
            && Resolved(engine, z.member, join, found)
            && z.member.head == Some(Merge(m, join, found)) && m.rows <= z.member.rows
            && z.member.steps == m.steps[join.state.stepIndex := MergedResult(join, Resolutions(m, join, found))]
            && z.member.fanins == m.fanins[join := Resolutions(m, join, found)]
  {
    var e, join := Fanin(episode, found, None), y.joins[episode];
    var full := RowsArrive(engine, x, y, join.rows);
    SameHeadKeepsInv(engine, y, full.member);
    FaninSucceeds(engine, full, episode, found);
    AppendOne(engine, x, full, e);
    NextKeepsInv(engine, full, e);
    z := Next(engine, full, e);
  }

  // ---------------------------------------------------------------- a head that falls back

  /** Every episode of a run with one deferral for each step can be replayed to a lower stage: once it is
      fanned in and the next step has run, fanning it in again takes the head back. */
  lemma EveryEpisodeCanFallBack(engine: Engine, x: Machine) returns (y: Machine, e: Event)
    requires OrderlyReachable(engine, x) && Base(x).pending.Some? && RowCount(engine, Base(x).intents) > 0
    ensures Leads(engine, x, y) && e.Fanin? && Allowed(engine, y, e)
    ensures !PlanFor(engine, y, e).outcome.Failed? && HeadStage(Next(engine, y, e)) < HeadStage(y)
  {
    OrderlyReachableInv(engine, x);
    Starts(engine, x);
    y, e := FallBack(engine, x, x);
  }

  lemma FallBack(engine: Engine, from: Machine, x: Machine) returns (y: Machine, e: Event)
    requires PlainLeads(engine, from, x) && Leads(engine, from, x) && OrderlyInv(engine, x)
    requires Base(x).pending.Some? && RowCount(engine, Base(x).intents) > 0
    ensures Leads(engine, from, y) && y.start == x.start && e.Fanin? && Allowed(engine, y, e)
    ensures !PlanFor(engine, y, e).outcome.Failed? && HeadStage(Next(engine, y, e)) < HeadStage(y)
  {
    var last := |x.joins| - 1;
    var join := x.joins[last];
    assert JoinOk(join) && Settled(x.member, join);
    var found := seq(|join.state.intents|, _ => 0);
    var merged := Resolve(engine, from, x, last, found);
    LastIsHighest(x.joins, join.state.stepIndex);
    y := StepOnward(engine, from, merged);
    e := Fanin(last, found, None);
    ReplayLands(engine, y, last, found);
  }

  /** A step that finishes, or repeats a bound result, on an unparked head. */
  lemma StepOnward(engine: Engine, x: Machine, y: Machine) returns (z: Machine)
    requires PlainLeads(engine, x, y) && PlainInv(engine, y)
    requires Base(y).pending.None? && !Base(y).terminal && y.member.head.Some?
    ensures PlainLeads(engine, x, z) && PlainInv(engine, z)
    ensures Leads(engine, x, y) && (forall i :: 0 <= i < |y.joins| ==> y.joins[i].state.stepIndex != Base(y).stepIndex)
            ==> Leads(engine, x, z)
    ensures z == y.(member := y.member.(head := z.member.head, steps := z.member.steps))
    ensures z.member.head.Some? && |Base(z).steps| > 0
    ensures Base(z) == Advanced(Base(y), Base(z).steps[|Base(z).steps| - 1]) && Extends(y.member.steps, z.member.steps)
    ensures Base(y).stepIndex in y.member.steps ==>
              z.member.steps == y.member.steps && Base(z) == Advanced(Base(y), y.member.steps[Base(y).stepIndex])
    ensures Base(y).stepIndex !in y.member.steps ==> !Base(z).terminal
  {
    var step := Step(Finish(true, 0), None);
    AppendOne(engine, x, y, step);
    StepDoesTo(engine, y, step);
    NextKeepsInv(engine, y, step);
    z := Next(engine, y, step);
  }

  lemma LastIsHighest(joins: seq<Join>, k: nat)
    requires InOrder(joins) && joins != [] && joins[|joins| - 1].state.stepIndex == k
    ensures forall i :: 0 <= i < |joins| ==> joins[i].state.stepIndex != k + 1
  {
    forall i | 0 <= i < |joins|
      ensures joins[i].state.stepIndex <= k
    {
      if i < |joins| - 1 {
        assert Earlier(joins[i], joins[|joins| - 1]);
      }
    }
  }

  // ---------------------------------------------------------------- two runs of a small member

  const INTENTS: seq<Intent> := [Intent(0, None)]
  const ENGINE: Engine := Engine([0], 1)

  lemma OneRow()
    ensures RowCount(ENGINE, INTENTS) == 1 && AllKnown(ENGINE, INTENTS)
  {
    assert INTENTS[..0] == [];
    assert RowCount(ENGINE, INTENTS[..0]) == 0;
  }

  const DEFERRING: Event := Step(Defer(INTENTS, 0), None)

  /** A deferring step parks the head on a new episode. */
  lemma Park(from: Machine, x: Machine) returns (y: Machine, join: Join)
    requires PlainLeads(ENGINE, from, x) && PlainInv(ENGINE, x)
    requires Base(x).pending.None? && !Base(x).terminal && Base(x).stepIndex !in x.member.steps
    requires x.joins != [] ==> x.joins[|x.joins| - 1].origin != Base(x).stage
    ensures PlainLeads(ENGINE, from, y) && PlainInv(ENGINE, y) && y.start == x.start
    ensures Allowed(ENGINE, x, DEFERRING) && y == Next(ENGINE, x, DEFERRING)
    ensures y == Machine(x.start, x.member.(head := Some(join.state)), x.joins + [join])
    ensures join.origin == Base(x).stage && join.state.stage == Base(x).stage + 2 && join.state.intents == INTENTS
    ensures join.state.stepIndex == Base(x).stepIndex && join.state.steps == Base(x).steps && join.state.pending.Some?
  {
    OneRow();
    AppendOne(ENGINE, from, x, DEFERRING);
    StepDoesTo(ENGINE, x, DEFERRING);
    NextKeepsInv(ENGINE, x, DEFERRING);
    y := Next(ENGINE, x, DEFERRING);
    join := y.joins[|x.joins|];
  }

  /** There is a run with one deferral for each step in which a replayed fan-in lowers the head. */
  lemma SomeHeadFallsBack() returns (x: Machine, e: Event)
    ensures OrderlyReachable(ENGINE, x) && e.Fanin? && Allowed(ENGINE, x, e)
    ensures !PlanFor(ENGINE, x, e).outcome.Failed? && HeadStage(Next(ENGINE, x, e)) < HeadStage(x)
  {
    OneRow();
    Starts(ENGINE, Init(0));
    var parked, join := Park(Init(0), Init(0));
    AppendOne(ENGINE, Init(0), Init(0), DEFERRING);
    NextKeepsOrder(ENGINE, Init(0), DEFERRING);
    x, e := FallBack(ENGINE, Init(0), parked);
  }

  /** The member holds everything it held, except perhaps its head. */
  predicate Keeps(m: Member, after: Member) {
    && m.rows <= after.rows && Extends(m.steps, after.steps)
    && (forall join :: join in m.fanins ==> join in after.fanins && after.fanins[join] == m.fanins[join])
  }

  lemma StillResolved(m: Member, after: Member, join: Join)
    requires Resolved(ENGINE, m, join, [0]) && Keeps(m, after)
    ensures Resolved(ENGINE, after, join, [0])
  {
  }

  lemma ResolveNewest(from: Machine, x: Machine, join: Join) returns (y: Machine)
    requires PlainLeads(ENGINE, from, x) && PlainInv(ENGINE, x) && x.joins != []
    requires join == x.joins[|x.joins| - 1] && join.state.pending.Some?
    requires join.state.intents == INTENTS && join !in x.member.fanins && join.state.stepIndex !in x.member.steps
    ensures PlainLeads(ENGINE, from, y) && PlainInv(ENGINE, y) && y.start == x.start && y.joins == x.joins
    ensures Resolved(ENGINE, y.member, join, [0]) && Keeps(x.member, y.member)
    ensures y.member.head == Some(MergedState(join, MergedResult(join, [0])))
    ensures y.member.steps.Keys == x.member.steps.Keys + {join.state.stepIndex}
    ensures y.member.fanins.Keys == x.member.fanins.Keys + {join}
  {
    OneRow();
    assert RowCount(ENGINE, join.state.intents) > 0 && |[0]| == |join.state.intents|;
    y := Resolve(ENGINE, from, x, |x.joins| - 1, [0]);
    BindsNew(x.member, y.member, join, [0]);
  }

  lemma BindsNew(m: Member, after: Member, join: Join, found: seq<nat>)
    requires join.state.pending.Some? && join !in m.fanins && join.state.stepIndex !in m.steps && m.rows <= after.rows
    requires after.steps == m.steps[join.state.stepIndex := MergedResult(join, found)] && after.fanins == m.fanins[join := found]
    ensures Keeps(m, after) && after.fanins.Keys == m.fanins.Keys + {join}
    ensures after.steps.Keys == m.steps.Keys + {join.state.stepIndex}
  {
  }

  /** An unparked head at an unbound step, beyond all episodes. */
  predicate Onward(x: Machine, at: nat, stage: nat) {
    && Base(x).pending.None? && !Base(x).terminal && Base(x).stepIndex == at && Base(x).stage == stage
    && at !in x.member.steps
    && (forall join :: join in x.member.fanins ==> join.state.stepIndex < at)
    && (x.joins != [] ==> x.joins[|x.joins| - 1].origin < stage)
  }

  /** One step of the member, from its deferral to its merge. */
  lemma WholeEpisode(from: Machine, x: Machine, at: nat, stage: nat) returns (y: Machine, join: Join)
    requires PlainLeads(ENGINE, from, x) && PlainInv(ENGINE, x) && Onward(x, at, stage)
    ensures PlainLeads(ENGINE, from, y) && PlainInv(ENGINE, y) && y.start == x.start
    ensures y.joins == x.joins + [join] && Resolved(ENGINE, y.member, join, [0])
    ensures join.state.stepIndex == at && join.state.stage == stage + 2
    ensures Keeps(x.member, y.member) && Onward(y, at + 1, stage + 3) && y.member.head.Some?
  {
    var parked;
    parked, join := Park(from, x);
    y := ResolveNewest(from, parked, join);
    NothingBeyond(x.member.steps, at);
  }

  lemma NothingBeyond(steps: map<nat, StepResult>, at: nat)
    requires AllLinked(steps) && at !in steps
    ensures at + 1 !in steps
  {
  }

  /** A member with two steps, each merged from its own episode. */
  lemma TwoEpisodes() returns (x: Machine)
    ensures PlainLeads(ENGINE, Init(0), x) && PlainInv(ENGINE, x) && x.start == 0 && |x.joins| == 2 && Onward(x, 2, 6)
    ensures x.joins[0].state.stepIndex == 0 && x.joins[0].state.stage == 2 && Resolved(ENGINE, x.member, x.joins[0], [0])
    ensures x.joins[1].state.stepIndex == 1 && x.joins[1].state.stage == 5 && Resolved(ENGINE, x.member, x.joins[1], [0])
  {
    Starts(ENGINE, Init(0));
    assert Onward(Init(0), 0, 0) && PlainInv(ENGINE, Init(0));
    var one, join0 := WholeEpisode(Init(0), Init(0), 0, 0);
    var join1;
    x, join1 := WholeEpisode(Init(0), one, 1, 3);
    StillResolved(one.member, x.member, join0);
  }

  /** The head is taken back to the merge of an episode. */
  lemma Replay(from: Machine, x: Machine, episode: nat) returns (y: Machine)
    requires PlainLeads(ENGINE, from, x) && PlainInv(ENGINE, x) && episode < |x.joins|
    requires Resolved(ENGINE, x.member, x.joins[episode], [0])
    ensures PlainLeads(ENGINE, from, y) && PlainInv(ENGINE, y) && y.start == x.start && y.joins == x.joins
    ensures y.member == x.member.(head := y.member.head) && y.member.head.Some?
    ensures Base(y).pending.None? && !Base(y).terminal
    ensures Base(y).stepIndex == x.joins[episode].state.stepIndex + 1 && Base(y).stage == x.joins[episode].state.stage + 1
  {
    ReplayLands(ENGINE, x, episode, [0]);
    AppendOne(ENGINE, from, x, Fanin(episode, [0], None));
    NextKeepsInv(ENGINE, x, Fanin(episode, [0], None));
    y := Next(ENGINE, x, Fanin(episode, [0], None));
  }

  lemma MergedContinues(x: Machine, episode: nat)
    requires PlainInv(ENGINE, x) && episode < |x.joins| && Resolved(ENGINE, x.member, x.joins[episode], [0])
    ensures x.member.steps[x.joins[episode].state.stepIndex].continues
  {
    assert JoinFits(ENGINE, x.member.steps, x.joins[episode]);
  }

  /** Taken back to the first episode, the head repeats the second step without its stages and goes on. */
  lemma RepeatAndGoOn(both: Machine) returns (x: Machine)
    requires PlainLeads(ENGINE, Init(0), both) && PlainInv(ENGINE, both) && |both.joins| == 2 && 2 !in both.member.steps
    requires both.joins[0].state.stepIndex == 0 && both.joins[0].state.stage == 2 && Resolved(ENGINE, both.member, both.joins[0], [0])
    requires both.joins[1].state.stepIndex == 1 && Resolved(ENGINE, both.member, both.joins[1], [0])
    ensures PlainLeads(ENGINE, Init(0), x) && PlainInv(ENGINE, x) && x.start == both.start && x.joins == both.joins
    ensures Base(x).stepIndex == 3 && Base(x).stage == 5 && Keeps(both.member, x.member)
  {
    MergedContinues(both, 1);
    var replayed := Replay(Init(0), both, 0);
    var again := StepOnward(ENGINE, Init(0), replayed);
    x := StepOnward(ENGINE, Init(0), again);
  }

  /** Where steps run again beside their episodes, stages do not even order heads of one chain: here a fan-in
      takes the head back to fewer results and to a higher stage. */
  lemma StagesDoNotOrderRepeats() returns (x: Machine, e: Event)
    ensures PlainReachable(ENGINE, x) && e.Fanin? && Allowed(ENGINE, x, e)
    ensures !PlanFor(ENGINE, x, e).outcome.Failed?
    ensures Base(Next(ENGINE, x, e)).steps < Base(x).steps && HeadStage(Next(ENGINE, x, e)) > HeadStage(x)
  {
    var both := TwoEpisodes();
    x := RepeatAndGoOn(both);
    e := Fanin(1, [0], None);
    StillResolved(both.member, x.member, x.joins[1]);
    ReplayLands(ENGINE, x, 1, [0]);
    FaninLands(ENGINE, x, e);
  }
}
