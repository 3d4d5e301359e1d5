/** Retrying a deferring optimizer step after a crash between any two of its store writes. */
module StageRetry {
  import opened StageFanOut
  import opened StageMember
  import StagePlainRun
  import StageRun

  /** A deferring step about to run: the unparked state it starts from and the bindings it finds. */
  datatype Episode = Episode(rt: Runtime, before: Member, base: WorkState)

  ghost predicate Ready(e: Episode) {
    var k, output := e.base.stepIndex, e.rt.adapter(RequestOf(e.rt, e.base));
    && e.base == WorkState(e.base.stage, k, e.base.steps, false, None, None, [])
    && |e.base.steps| == k
    && e.before.head in {None, Some(e.base)}
    && (forall i :: i in e.before.steps <==> 0 <= i < k)
    && (forall i :: 0 <= i < k ==> e.before.steps[i] == e.base.steps[i] && e.base.steps[i].continues)
    && k !in e.before.deferred && (k > 0 ==> k - 1 !in e.before.deferred)
    && output.Defer? && output.intents != [] && AllKnown(e.rt.engine, output.intents)
  }

  function At(e: Episode): nat { e.base.stepIndex }

  function Placeholder(e: Episode): StepResult { ResultOf(e.rt, RequestOf(e.rt, e.base)) }

  function Intents(e: Episode): seq<Intent> { DeferredOf(e.rt, RequestOf(e.rt, e.base)) }

  function ParkedHead(e: Episode): WorkState {
    Parked(e.rt.engine, e.base, Intents(e), e.base.stage, Placeholder(e))
  }

  /** What the uncrashed step reports. */
  function Completion(e: Episode): Outcome
    requires Intents(e) != []
  {
    Completed(ParkedHead(e), Emitted(e.rt.engine, Intents(e), e.base.stage, ParkedHead(e)))
  }

  /** The two references a retry may start from. */
  predicate Retries(e: Episode, input: Input) {
    input == StateRef(e.base) || input == WorkInput(e.base.stage)
  }

  /** What the store can look like between the writes of the step and of its retries. */
  ghost predicate Between(e: Episode, m: Member) {
    && m.rows == e.before.rows && m.fanins == e.before.fanins
    && (m.steps == e.before.steps || m.steps == e.before.steps[At(e) := Placeholder(e)])
    && (m.deferred == e.before.deferred || m.deferred == e.before.deferred[At(e) := Intents(e)])
    && (m.head == e.before.head || m.head == None || m.head == Some(ParkedHead(e)))
  }

  /** Either the retry finds the parked head, or a bound placeholder still has its persisted intents. */
  predicate Recoverable(e: Episode, m: Member, input: Input) {
    Load(m, input).pending.Some? || At(e) !in m.steps || At(e) in m.deferred
  }

  // ---------------------------------------------------------------- what a retry loads

  lemma {:induction false} ScanChain(steps: map<nat, StepResult>, stage: nat, chain: seq<StepResult>, at: nat)
    requires at <= |chain| && |chain| !in steps
    requires forall i :: 0 <= i < |chain| ==> i in steps && steps[i] == chain[i] && chain[i].continues
    ensures Scan(steps, stage, at, chain[..at]) == WorkState(stage, |chain|, chain, false, None, None, [])
    decreases |chain| - at
  {
    if at < |chain| {
      assert chain[..at] + [chain[at]] == chain[..at + 1];
      ScanChain(steps, stage, chain, at + 1);
    } else {
      assert chain[..at] == chain;
    }
  }

  lemma Loads(e: Episode, m: Member, input: Input)
    requires Ready(e) && Between(e, m) && Retries(e, input)
    ensures Load(m, input) ==
              if input.StateRef? || m.head == Some(e.base) then e.base
              else if m.head.Some? then ParkedHead(e)
              else if At(e) in m.steps then
                WorkState(e.base.stage, At(e) + 1, e.base.steps + [Placeholder(e)], false, None, None, [])
              else e.base
  {
    if input.WorkInput? && m.head.None? {
      var chain := if At(e) in m.steps then e.base.steps + [Placeholder(e)] else e.base.steps;
      ScanChain(m.steps, e.base.stage, chain, 0);
      assert chain[..0] == [];
    }
  }

  // ---------------------------------------------------------------- the writes of a retry

  function DeferralWrites(e: Episode): seq<Write> {
    [BindDeferred(At(e), Intents(e))] + Rebind(ParkedHead(e)) + [EvictStep(At(e)), EvictDeferred(At(e))]
  }

  function FreshWrites(e: Episode): seq<Write> {
    [BindDeferred(At(e), Intents(e)), BindStep(At(e), Placeholder(e))] + DeferralWrites(e)
  }

  function ResumeWrites(e: Episode): seq<Write> {
    Rebind(ParkedHead(e)) + [EvictDeferred(At(e))]
  }

  /** The writes a recoverable retry makes. */
  function RetryWrites(e: Episode, m: Member, input: Input): seq<Write> {
    if Load(m, input).pending.Some? then ResumeWrites(e)
    else if At(e) in m.steps then DeferralWrites(e)
    else FreshWrites(e)
  }

  lemma DeferralPlanIs(e: Episode, m: Member, chain: seq<StepResult>)
    requires Ready(e) && Between(e, m)
    requires Take(chain, At(e)) == e.base.steps
    ensures DeferralPlan(e.rt, m, e.base.stage, At(e), chain, Intents(e), Placeholder(e)) == Plan(DeferralWrites(e), Completion(e))
  {
  }

  /** From a recoverable store, a retry from either reference reports what the uncrashed step reports. */
  lemma RecoverableRetry(e: Episode, m: Member, input: Input, claimed: Option<nat>)
    requires Ready(e) && Between(e, m) && Retries(e, input) && Recoverable(e, m, input)
    requires StageAgrees(claimed, e.base.stage)
    ensures OptimPlan(e.rt, m, input, claimed) == Plan(RetryWrites(e, m, input), Completion(e))
  {
    Loads(e, m, input);
    var state, k := Load(m, input), At(e);
    assert Take(e.base.steps, k) == e.base.steps;
    if state.pending.None? {
      if k in m.steps {
        assert Take(e.base.steps + [Placeholder(e)], k) == e.base.steps;
        assert Unresolved(m, k) && UnresolvedStep(m, state) == Some(k);
        DeferralPlanIs(e, m, state.steps);
      } else {
        assert UnresolvedStep(m, state) == None;
        FreshRetry(e, m);
      }
    }
  }

  lemma FreshRetry(e: Episode, m: Member)
    requires Ready(e) && Between(e, m) && At(e) !in m.steps
    ensures FreshPlan(e.rt, m, e.base) == Plan(FreshWrites(e), Completion(e))
  {
    var k := At(e);
    var run := RunStep(e.rt, m, e.base);
    assert Take(e.base.steps, k) == e.base.steps;
    StageRun.ApplyTwo(m, BindDeferred(k, Intents(e)), BindStep(k, Placeholder(e)));
    assert run == StepRun([BindDeferred(k, Intents(e)), BindStep(k, Placeholder(e))], Placeholder(e), Intents(e));
    DeferralPlanIs(e, ApplyAll(m, run.writes), e.base.steps);
  }

  /** From any other store, a retry reports something else: it takes the placeholder for a finished step. */
  lemma UnrecoverableRetry(e: Episode, m: Member, input: Input, claimed: Option<nat>)
    requires Ready(e) && Between(e, m) && Retries(e, input) && !Recoverable(e, m, input)
    requires StageAgrees(claimed, e.base.stage)
    ensures OptimPlan(e.rt, m, input, claimed).outcome != Completion(e)
    ensures input.StateRef? ==>
              OptimPlan(e.rt, m, input, claimed).outcome ==
              Completed(Advanced(e.base, Placeholder(e)), [StepStage(e.base.stage + 1, Advanced(e.base, Placeholder(e)))])
  {
    Loads(e, m, input);
    var state := Load(m, input);
    assert UnresolvedStep(m, state) == None;
    assert OptimPlan(e.rt, m, input, claimed) == FreshPlan(e.rt, m, state);
    if input.StateRef? || state == e.base {
      TakenForFinished(e, m);
    } else {
      StepsBeyond(e, m, state);
    }
  }

  lemma TakenForFinished(e: Episode, m: Member)
    requires Ready(e) && Between(e, m) && At(e) in m.steps && At(e) !in m.deferred
    ensures FreshPlan(e.rt, m, e.base).outcome ==
            Completed(Advanced(e.base, Placeholder(e)), [StepStage(e.base.stage + 1, Advanced(e.base, Placeholder(e)))])
  {
    assert RunStep(e.rt, m, e.base) == StepRun([], Placeholder(e), []);
  }

  lemma StepsBeyond(e: Episode, m: Member, state: WorkState)
    requires Intents(e) != [] && state.stepIndex > At(e)
    ensures FreshPlan(e.rt, m, state).outcome != Completion(e)
  {
    var outcome := FreshPlan(e.rt, m, state).outcome;
    assert outcome.Completed? ==> outcome.output.stepIndex > At(e);
  }

  /** The retry of a deferring step succeeds exactly when the store it finds is recoverable. */
  lemma RetryIffRecoverable(e: Episode, m: Member, input: Input, claimed: Option<nat>)
    requires Ready(e) && Between(e, m) && Retries(e, input) && StageAgrees(claimed, e.base.stage)
    ensures OptimPlan(e.rt, m, input, claimed).outcome == Completion(e) <==> Recoverable(e, m, input)
  {
    if Recoverable(e, m, input) {
      RecoverableRetry(e, m, input, claimed);
    } else {
      UnrecoverableRetry(e, m, input, claimed);
    }
  }

  // ---------------------------------------------------------------- crashes

  lemma Trace(m: Member, ws: seq<Write>, j: nat)
    requires j < |ws|
    ensures ApplyAll(m, ws[..j + 1]) == Apply(ApplyAll(m, ws[..j]), ws[j])
  {
    assert ws[..j + 1][..j] == ws[..j];
  }

  predicate OwnWrite(e: Episode, w: Write) {
    w in {BindDeferred(At(e), Intents(e)), BindStep(At(e), Placeholder(e)), EvictHead, BindHead(ParkedHead(e)),
          EvictStep(At(e)), EvictDeferred(At(e))}
  }

  lemma OwnWriteKeepsBetween(e: Episode, m: Member, w: Write)
    requires Ready(e) && Between(e, m) && OwnWrite(e, w)
    ensures Between(e, Apply(m, w))
  {
    assert m.steps - {At(e)} == e.before.steps;
    assert m.steps[At(e) := Placeholder(e)] == e.before.steps[At(e) := Placeholder(e)];
    assert m.deferred - {At(e)} == e.before.deferred;
    assert m.deferred[At(e) := Intents(e)] == e.before.deferred[At(e) := Intents(e)];
  }

  lemma {:induction false} CutKeepsBetween(e: Episode, m: Member, ws: seq<Write>, cut: nat)
    requires Ready(e) && Between(e, m) && cut <= |ws|
    requires forall i :: 0 <= i < |ws| ==> OwnWrite(e, ws[i])
    ensures Between(e, ApplyAll(m, ws[..cut]))
  {
    if cut > 0 {
      CutKeepsBetween(e, m, ws, cut - 1);
      Trace(m, ws, cut - 1);
      OwnWriteKeepsBetween(e, ApplyAll(m, ws[..cut - 1]), ws[cut - 1]);
    }
  }

  /** The placeholder is never bound without its intents. */
  predicate Backed(e: Episode, m: Member) {
    At(e) in m.steps ==> At(e) in m.deferred
  }

  /** Cutting a deferral anywhere keeps the placeholder backed by its intents. */
  lemma DeferralCut(e: Episode, m: Member, cut: nat)
    requires cut <= 5
    requires Backed(e, m)
    ensures Backed(e, ApplyAll(m, DeferralWrites(e)[..cut]))
    ensures cut < 5 && At(e) in m.deferred ==> At(e) in ApplyAll(m, DeferralWrites(e)[..cut]).deferred
    ensures cut == 5 ==> At(e) !in ApplyAll(m, DeferralWrites(e)[..cut]).steps
                         && At(e) !in ApplyAll(m, DeferralWrites(e)[..cut]).deferred
                         && ApplyAll(m, DeferralWrites(e)[..cut]).head == Some(ParkedHead(e))
  {
    var ws := DeferralWrites(e);
    if cut > 0 { Trace(m, ws, 0); }
    if cut > 1 { Trace(m, ws, 1); }
    if cut > 2 { Trace(m, ws, 2); }
    if cut > 3 { Trace(m, ws, 3); }
    if cut > 4 { Trace(m, ws, 4); }
  }

  lemma FreshCut(e: Episode, m: Member, cut: nat)
    requires cut <= 7 && Backed(e, m)
    ensures Backed(e, ApplyAll(m, FreshWrites(e)[..cut]))
    ensures cut == 7 ==> At(e) !in ApplyAll(m, FreshWrites(e)[..cut]).steps
                         && At(e) !in ApplyAll(m, FreshWrites(e)[..cut]).deferred
                         && ApplyAll(m, FreshWrites(e)[..cut]).head == Some(ParkedHead(e))
  {
    var ws := FreshWrites(e);
    if cut > 0 { Trace(m, ws, 0); }
    if cut > 1 {
      Trace(m, ws, 1);
      var m2 := ApplyAll(m, ws[..2]);
      assert ws[..cut] == ws[..2] + DeferralWrites(e)[..cut - 2];
      ApplyAllConcat(m, ws[..2], DeferralWrites(e)[..cut - 2]);
      DeferralCut(e, m2, cut - 2);
    }
  }

  /** The store after attempts from the work state reference, each cut short after some of its writes. */
  function Attempts(e: Episode, m: Member, cuts: seq<nat>): Member
    decreases cuts
  {
    if cuts == [] then m
    else
      var ws := OptimPlan(e.rt, m, StateRef(e.base), None).writes;
      Attempts(e, ApplyAll(m, Take(ws, cuts[0])), cuts[1..])
  }

  /** Cutting a retry that does not find the parked head. */
  lemma CutRetry(e: Episode, m: Member, ws: seq<Write>, n: nat)
    requires Ready(e) && Between(e, m) && Backed(e, m)
    requires ws == (if At(e) in m.steps then DeferralWrites(e) else FreshWrites(e)) && n <= |ws|
    ensures Between(e, ApplyAll(m, ws[..n])) && Backed(e, ApplyAll(m, ws[..n]))
    ensures n == |ws| ==> ApplyAll(m, ws) == e.before.(head := Some(ParkedHead(e)))
  {
    assert ws[..|ws|] == ws;
    CutKeepsBetween(e, m, ws, n);
    if At(e) in m.steps {
      DeferralCut(e, m, n);
    } else {
      FreshCut(e, m, n);
    }
  }

  lemma CutAttempt(e: Episode, m: Member, cut: nat)
    requires Ready(e) && Between(e, m) && Backed(e, m)
    ensures var next := ApplyAll(m, Take(OptimPlan(e.rt, m, StateRef(e.base), None).writes, cut));
            Between(e, next) && Backed(e, next)
  {
    RecoverableRetry(e, m, StateRef(e.base), None);
    Loads(e, m, StateRef(e.base));
    var ws := RetryWrites(e, m, StateRef(e.base));
    CutRetry(e, m, ws, if cut <= |ws| then cut else |ws|);
    assert ws[..|ws|] == ws;
  }

  lemma {:induction false} AttemptsStayRecoverable(e: Episode, m: Member, cuts: seq<nat>)
    requires Ready(e) && Between(e, m) && Backed(e, m)
    ensures Between(e, Attempts(e, m, cuts)) && Backed(e, Attempts(e, m, cuts))
    decreases cuts
  {
    if cuts != [] {
      CutAttempt(e, m, cuts[0]);
      AttemptsStayRecoverable(e, ApplyAll(m, Take(OptimPlan(e.rt, m, StateRef(e.base), None).writes, cuts[0])), cuts[1..]);
    }
  }

  /** Any number of crashed attempts from the work state reference, each cut between any two writes, and then
      one whole attempt: the same report and exactly the same store as the uncrashed step. */
  lemma CrashedAttemptsAreHarmless(e: Episode, cuts: seq<nat>)
    requires Ready(e)
    ensures var clean, crashed := OptimPlan(e.rt, e.before, StateRef(e.base), None), Attempts(e, e.before, cuts);
            var retry := OptimPlan(e.rt, crashed, StateRef(e.base), None);
            && clean.outcome == retry.outcome == Completion(e)
            && After(e.before, clean) == After(crashed, retry) == e.before.(head := Some(ParkedHead(e)))
  {
    AttemptsStayRecoverable(e, e.before, cuts);
    WholeAttempt(e, e.before);
    WholeAttempt(e, Attempts(e, e.before, cuts));
  }

  lemma WholeAttempt(e: Episode, m: Member)
    requires Ready(e) && Between(e, m) && Backed(e, m)
    ensures var plan := OptimPlan(e.rt, m, StateRef(e.base), None);
            && plan.outcome == Completion(e)
            && After(m, plan) == e.before.(head := Some(ParkedHead(e)))
  {
    RecoverableRetry(e, m, StateRef(e.base), None);
    Loads(e, m, StateRef(e.base));
    var ws := RetryWrites(e, m, StateRef(e.base));
    CutRetry(e, m, ws, |ws|);
  }

  /** After one crash anywhere in the uncrashed step, a retry from either reference reports the same and leaves
      the same parked head and no persisted intents. */
  lemma OneCrashEitherReference(e: Episode, first: Input, cut: nat, second: Input)
    requires Ready(e) && Retries(e, first) && Retries(e, second)
    requires cut <= |OptimPlan(e.rt, e.before, first, None).writes|
    ensures var clean := OptimPlan(e.rt, e.before, first, None);
            var crashed := ApplyAll(e.before, clean.writes[..cut]);
            var retry := OptimPlan(e.rt, crashed, second, None);
            && clean.outcome == retry.outcome == Completion(e)
            && After(e.before, clean).head == After(crashed, retry).head == Some(ParkedHead(e))
            && After(crashed, retry).deferred == After(e.before, clean).deferred
  {
    Loads(e, e.before, first);
    RecoverableRetry(e, e.before, first, None);
    var ws := FreshWrites(e);
    CutRetry(e, e.before, ws, cut);
    CutRetry(e, e.before, ws, |ws|);
    var crashed := ApplyAll(e.before, ws[..cut]);
    RecoverableRetry(e, crashed, second, None);
    RetryLands(e, crashed, second);
  }

  lemma RetryLands(e: Episode, m: Member, input: Input)
    requires Ready(e) && Between(e, m) && Retries(e, input) && Backed(e, m)
    ensures var done := ApplyAll(m, RetryWrites(e, m, input));
            done.head == Some(ParkedHead(e)) && done.deferred == e.before.deferred
  {
    Loads(e, m, input);
    var ws := RetryWrites(e, m, input);
    if Load(m, input).pending.Some? {
      ResumeWritesLand(e, m);
      assert m.deferred - {At(e)} == e.before.deferred;
    } else {
      CutRetry(e, m, ws, |ws|);
    }
  }

  /** The head is parked while the placeholder is still bound: the crash came just before the eviction. */
  predicate Lingers(e: Episode, m: Member) {
    m.head == Some(ParkedHead(e)) && At(e) in m.steps
  }

  /** From any store that crashed attempts can leave, a whole retry leaves the store of the uncrashed step unless
      it starts from the work input and finds the placeholder beside the parked head. */
  lemma RetrySettlesIff(e: Episode, m: Member, input: Input)
    requires Ready(e) && Between(e, m) && Retries(e, input) && Backed(e, m)
    ensures var retry := OptimPlan(e.rt, m, input, None);
            && retry.outcome == Completion(e)
            && (After(m, retry) == e.before.(head := Some(ParkedHead(e))) <==> !(input.WorkInput? && Lingers(e, m)))
  {
    Loads(e, m, input);
    RecoverableRetry(e, m, input, None);
    if Load(m, input).pending.Some? {
      ResumeWritesLand(e, m);
      assert m.deferred - {At(e)} == e.before.deferred;
    } else {
      CutRetry(e, m, RetryWrites(e, m, input), |RetryWrites(e, m, input)|);
    }
  }

  /** After one crash in the uncrashed step, a retry leaves the same store exactly when it does not start from the
      work input after the fifth of the seven writes: that is the one cut that leaves the placeholder bound
      beside the parked head. */
  lemma OneCrashSameStoreIff(e: Episode, first: Input, cut: nat, second: Input)
    requires Ready(e) && Retries(e, first) && Retries(e, second)
    requires cut <= |OptimPlan(e.rt, e.before, first, None).writes|
    ensures var clean := OptimPlan(e.rt, e.before, first, None);
            var crashed := ApplyAll(e.before, clean.writes[..cut]);
            && (After(crashed, OptimPlan(e.rt, crashed, second, None)) == After(e.before, clean)
                <==> !(second.WorkInput? && Lingers(e, crashed)))
            && (Lingers(e, crashed) <==> cut == 5)
  {
    Loads(e, e.before, first);
    RecoverableRetry(e, e.before, first, None);
    var ws := FreshWrites(e);
    CutRetry(e, e.before, ws, cut);
    CutRetry(e, e.before, ws, |ws|);
    LingersAtFive(e, cut);
    RetrySettlesIff(e, ApplyAll(e.before, ws[..cut]), second);
    assert ws[..|ws|] == ws;
  }

  lemma LingersAtFive(e: Episode, cut: nat)
    requires Ready(e) && cut <= 7
    ensures Lingers(e, ApplyAll(e.before, FreshWrites(e)[..cut])) <==> cut == 5
  {
    var m, ws := e.before, FreshWrites(e);
    assert m.head != Some(ParkedHead(e));
    if cut > 0 { Trace(m, ws, 0); }
    if cut > 1 {
      Trace(m, ws, 1);
      assert ws[..cut] == ws[..2] + DeferralWrites(e)[..cut - 2];
      ApplyAllConcat(m, ws[..2], DeferralWrites(e)[..cut - 2]);
      LingersAtThree(e, ApplyAll(m, ws[..2]), cut - 2);
    }
  }

  lemma LingersAtThree(e: Episode, m: Member, cut: nat)
    requires At(e) in m.steps && m.head != Some(ParkedHead(e)) && cut <= 5
    ensures Lingers(e, ApplyAll(m, DeferralWrites(e)[..cut])) <==> cut == 3
  {
    var ws := DeferralWrites(e);
    if cut > 0 { Trace(m, ws, 0); }
    if cut > 1 { Trace(m, ws, 1); }
    if cut > 2 { Trace(m, ws, 2); }
    if cut > 3 { Trace(m, ws, 3); }
    if cut > 4 { Trace(m, ws, 4); }
  }

  // ---------------------------------------------------------------- crashes of retries from either reference

  /** An attempt from one of the two references, cut short after some of its writes. */
  datatype Attempt = Attempt(input: Input, cut: nat)

  function AfterAttempt(e: Episode, m: Member, a: Attempt): Member {
    ApplyAll(m, Take(OptimPlan(e.rt, m, a.input, None).writes, a.cut))
  }

  function AfterAttempts(e: Episode, m: Member, attempts: seq<Attempt>): Member
    decreases attempts
  {
    if attempts == [] then m else AfterAttempts(e, AfterAttempt(e, m, attempts[0]), attempts[1..])
  }

  /** The attempt starts from the work input, finds the placeholder beside the parked head, and gets as far as
      evicting the intents. */
  predicate Strands(e: Episode, m: Member, a: Attempt) {
    a.input.WorkInput? && Lingers(e, m) && a.cut >= 3
  }

  predicate NoneStrands(e: Episode, m: Member, attempts: seq<Attempt>)
    decreases attempts
  {
    attempts != [] ==>
      !Strands(e, m, attempts[0]) && NoneStrands(e, AfterAttempt(e, m, attempts[0]), attempts[1..])
  }

  /** Each store on the way can be retried rightly from both references. */
  predicate AlwaysRecoverable(e: Episode, m: Member, attempts: seq<Attempt>)
    decreases attempts
  {
    && Recoverable(e, m, StateRef(e.base)) && Recoverable(e, m, WorkInput(e.base.stage))
    && (attempts != [] ==> AlwaysRecoverable(e, AfterAttempt(e, m, attempts[0]), attempts[1..]))
  }

  lemma BackedIsRecoverable(e: Episode, m: Member)
    requires Ready(e) && Between(e, m)
    ensures Backed(e, m) <==> Recoverable(e, m, StateRef(e.base)) && Recoverable(e, m, WorkInput(e.base.stage))
  {
  }

  lemma CutResume(e: Episode, m: Member, n: nat)
    requires Ready(e) && Between(e, m) && Backed(e, m) && m.head == Some(ParkedHead(e)) && n <= 3
    ensures var next := ApplyAll(m, ResumeWrites(e)[..n]);
            Between(e, next) && (Backed(e, next) <==> !(n == 3 && At(e) in m.steps))
  {
    var ws := ResumeWrites(e);
    CutKeepsBetween(e, m, ws, n);
    if n > 0 { Trace(m, ws, 0); }
    if n > 1 { Trace(m, ws, 1); }
    if n > 2 { Trace(m, ws, 2); }
  }

  lemma AttemptStrandsIff(e: Episode, m: Member, a: Attempt)
    requires Ready(e) && Between(e, m) && Backed(e, m) && Retries(e, a.input)
    ensures var next := AfterAttempt(e, m, a);
            Between(e, next) && (Backed(e, next) <==> !Strands(e, m, a))
  {
    Loads(e, m, a.input);
    RecoverableRetry(e, m, a.input, None);
    var ws := RetryWrites(e, m, a.input);
    var n := if a.cut <= |ws| then a.cut else |ws|;
    assert ws[..|ws|] == ws && Take(ws, a.cut) == ws[..n];
    if Load(m, a.input).pending.Some? {
      CutResume(e, m, n);
    } else {
      CutRetry(e, m, ws, n);
    }
  }

  lemma {:induction false} RecoverableIffNoneStrands(e: Episode, m: Member, attempts: seq<Attempt>)
    requires Ready(e) && Between(e, m) && Backed(e, m)
    requires forall i :: 0 <= i < |attempts| ==> Retries(e, attempts[i].input)
    ensures AlwaysRecoverable(e, m, attempts) <==> NoneStrands(e, m, attempts)
    ensures NoneStrands(e, m, attempts) ==> Between(e, AfterAttempts(e, m, attempts)) && Backed(e, AfterAttempts(e, m, attempts))
    decreases attempts
  {
    BackedIsRecoverable(e, m);
    if attempts != [] {
      var next := AfterAttempt(e, m, attempts[0]);
      AttemptStrandsIff(e, m, attempts[0]);
      BackedIsRecoverable(e, next);
      if Backed(e, next) {
        RecoverableIffNoneStrands(e, next, attempts[1..]);
      }
    }
  }

  /** Any number of crashed attempts, each from either reference and cut anywhere: the step stays recoverable all
      the way exactly when no attempt from the work input found the placeholder beside the parked head and got
      past evicting its intents; and then a whole attempt reports what the uncrashed step reports and leaves its
      store, unless it does just that itself. */
  lemma MixedAttempts(e: Episode, attempts: seq<Attempt>, last: Input)
    requires Ready(e) && Retries(e, last)
    requires forall i :: 0 <= i < |attempts| ==> Retries(e, attempts[i].input)
    ensures AlwaysRecoverable(e, e.before, attempts) <==> NoneStrands(e, e.before, attempts)
    ensures NoneStrands(e, e.before, attempts) ==>
              var crashed := AfterAttempts(e, e.before, attempts);
              var retry := OptimPlan(e.rt, crashed, last, None);
              && retry.outcome == Completion(e)
              && (After(crashed, retry) == e.before.(head := Some(ParkedHead(e))) <==> !(last.WorkInput? && Lingers(e, crashed)))
  {
    RecoverableIffNoneStrands(e, e.before, attempts);
    if NoneStrands(e, e.before, attempts) {
      RetrySettlesIff(e, AfterAttempts(e, e.before, attempts), last);
    }
  }

  // ---------------------------------------------------------------- the placeholder a resume leaves behind

  /** The store after a crash just before the placeholder is evicted and a retry from the work input: the
      report was right, but the placeholder is still bound. */
  function AfterResume(e: Episode): Member {
    e.before.(head := Some(ParkedHead(e)), steps := e.before.steps[At(e) := Placeholder(e)])
  }

  lemma ResumeLeavesPlaceholder(e: Episode)
    requires Ready(e)
    ensures var clean := OptimPlan(e.rt, e.before, StateRef(e.base), None);
            var crashed := ApplyAll(e.before, Take(clean.writes, 5));
            var retry := OptimPlan(e.rt, crashed, WorkInput(e.base.stage), None);
            retry.outcome == Completion(e) && After(crashed, retry) == AfterResume(e)
  {
    RecoverableRetry(e, e.before, StateRef(e.base), None);
    Loads(e, e.before, StateRef(e.base));
    CrashedBeforeEvicting(e);
    ResumeFromParked(e);
  }

  function CrashedParked(e: Episode): Member {
    AfterResume(e).(deferred := e.before.deferred[At(e) := Intents(e)])
  }

  lemma ResumeFromParked(e: Episode)
    requires Ready(e)
    ensures var retry := OptimPlan(e.rt, CrashedParked(e), WorkInput(e.base.stage), None);
            retry.outcome == Completion(e) && After(CrashedParked(e), retry) == AfterResume(e)
  {
    var crashed := CrashedParked(e);
    RecoverableRetry(e, crashed, WorkInput(e.base.stage), None);
    Loads(e, crashed, WorkInput(e.base.stage));
    ResumeWritesLand(e, crashed);
    assert crashed.deferred - {At(e)} == e.before.deferred;
  }

  lemma ResumeWritesLand(e: Episode, m: Member)
    requires m.head == Some(ParkedHead(e))
    ensures ApplyAll(m, ResumeWrites(e)) == m.(deferred := m.deferred - {At(e)})
  {
    var rs := ResumeWrites(e);
    Trace(m, rs, 0);
    Trace(m, rs, 1);
    Trace(m, rs, 2);
    assert rs[..3] == rs;
  }

  lemma CrashedBeforeEvicting(e: Episode)
    requires Ready(e)
    ensures ApplyAll(e.before, Take(FreshWrites(e), 5)) == CrashedParked(e)
  {
    var ws, k := FreshWrites(e), At(e);
    StageRun.ApplyTwo(e.before, ws[0], ws[1]);
    assert ws[..5] == ws[..2] + ([BindDeferred(k, Intents(e))] + Rebind(ParkedHead(e)));
    assert ws[..2] == [ws[0], ws[1]];
    ApplyAllConcat(e.before, ws[..2], [BindDeferred(k, Intents(e))] + Rebind(ParkedHead(e)));
    var m := ApplyAll(e.before, ws[..2]);
    StageRun.RebindSetsHead(m, [BindDeferred(k, Intents(e))], ParkedHead(e));
    StageRun.ApplyOne(m, BindDeferred(k, Intents(e)));
  }

  /** The episode has been parked by the step or a retry of it, and its rows are in. */
  ghost predicate ReadyToJoin(e: Episode, m: Member, join: Join, found: seq<nat>) {
    && m.head == Some(ParkedHead(e)) && m.deferred == e.before.deferred
    && (m.steps == e.before.steps || m.steps == e.before.steps[At(e) := Placeholder(e)])
    && Intents(e) != [] && join == JoinOf(e.rt.engine, Intents(e), e.base.stage, ParkedHead(e))
    && join.rows != [] && (forall row :: row in join.rows ==> row in m.rows)
    && (e.rt.gepa || StagePlainRun.Resolutions(m, join, found) != [])
  }

  /** A member is stuck exactly when a placeholder is left: with one, GEPA's next step or the other optimizers'
      fan-in conflicts; without one, the fan-in merges and the next step fails at most on unknown tasks or on
      intents that somebody left behind at its own index. */
  lemma BlockedIffPlaceholderLeft(e: Episode, m: Member, join: Join, found: seq<nat>)
    requires Ready(e) && ReadyToJoin(e, m, join, found)
    ensures var fanin := FaninPlan(e.rt, m, join, found, None);
            if e.rt.gepa then
              var next := OptimPlan(e.rt, After(m, fanin), StateRef(StageRun.Resumption(join)), None);
              && fanin.outcome == Merged(join, StepSuccessor(StageRun.Resumption(join)))
              && (next.outcome == Failed(StepConflict) <==> At(e) in m.steps)
              && (At(e) !in m.steps ==> next.outcome.Failed? ==> next.outcome.why == UnknownTask)
            else
              var merge := StagePlainRun.Merge(m, join, found);
              var next := OptimPlan(e.rt, After(m, fanin), StateRef(merge), None);
              && (fanin.outcome == Failed(StepConflict) <==> At(e) in m.steps)
              && (At(e) !in m.steps ==>
                    && fanin.outcome == Merged(join, StepSuccessor(merge))
                    && (next.outcome.Failed? ==>
                          next.outcome.why == UnknownTask || (next.outcome.why == DeferredConflict && At(e) + 1 in m.deferred)))
  {
    if e.rt.gepa {
      var next := StageRun.Resumption(join);
      ResumesFrom(e, m, join, found);
      if At(e) in m.steps {
        ConflictAfter(e, After(m, FaninPlan(e.rt, m, join, found, None)), next);
      } else {
        StepFollows(e.rt, After(m, FaninPlan(e.rt, m, join, found, None)), next);
      }
    } else {
      MergesUnlessLeft(e, m, join, found);
      if At(e) !in m.steps {
        StepFollows(e.rt, After(m, FaninPlan(e.rt, m, join, found, None)), StagePlainRun.Merge(m, join, found));
      }
    }
  }

  /** A step whose index is free and whose predecessor is bound and continuing meets no conflicting result. */
  lemma StepFollows(rt: Runtime, m: Member, state: WorkState)
    requires state == WorkState(state.stage, state.stepIndex, state.steps, false, None, None, [])
    requires |state.steps| == state.stepIndex && state.stepIndex !in m.steps
    requires state.stepIndex > 0 ==>
               && state.stepIndex - 1 in m.steps && m.steps[state.stepIndex - 1] == state.steps[state.stepIndex - 1]
               && m.steps[state.stepIndex - 1].continues
               && (m.steps[state.stepIndex - 1].resolved != [] || state.stepIndex - 1 !in m.deferred)
    ensures var outcome := OptimPlan(rt, m, StateRef(state), None).outcome;
            outcome.Failed? ==> outcome.why == UnknownTask || (outcome.why == DeferredConflict && state.stepIndex in m.deferred)
  {
    assert UnresolvedStep(m, state) == None;
    var run := RunStep(rt, m, state);
    var at, request := state.stepIndex, RequestOf(rt, state);
    StageRun.ApplyTwo(m, BindDeferred(at, DeferredOf(rt, request)), BindStep(at, ResultOf(rt, request)));
    StageRun.ApplyOne(m, BindStep(at, ResultOf(rt, request)));
    assert run.StepError? ==> run.why == DeferredConflict && state.stepIndex in m.deferred;
  }

  lemma ResumesFrom(e: Episode, m: Member, join: Join, found: seq<nat>)
    requires Ready(e) && e.rt.gepa && ReadyToJoin(e, m, join, found)
    ensures var next, fanin := StageRun.Resumption(join), FaninPlan(e.rt, m, join, found, None);
            && fanin.outcome == Merged(join, StepSuccessor(next))
            && After(m, fanin) == m.(head := Some(next), fanins := After(m, fanin).fanins)
  {
    var bind := if join in m.fanins then [] else [BindFanin(join, found)];
    assert Take(join.state.steps, join.state.stepIndex) == join.state.steps;
    StageRun.FaninWrites(m, bind, join, found, At(e), StageRun.Resumption(join));
  }

  lemma MergesUnlessLeft(e: Episode, m: Member, join: Join, found: seq<nat>)
    requires Ready(e) && !e.rt.gepa && ReadyToJoin(e, m, join, found)
    ensures var fanin, merge := FaninPlan(e.rt, m, join, found, None), StagePlainRun.Merge(m, join, found);
            && (fanin.outcome == Failed(StepConflict) <==> At(e) in m.steps)
            && (At(e) !in m.steps ==>
                  && fanin.outcome == Merged(join, StepSuccessor(merge))
                  && After(m, fanin).steps == m.steps[At(e) := merge.steps[At(e)]] && After(m, fanin).deferred == m.deferred)
  {
    StagePlainRun.FaninDoes(e.rt, m, join, found, None);
    assert MergedResult(join, StagePlainRun.Resolutions(m, join, found)).resolved != [];
  }

  lemma ConflictAfter(e: Episode, m: Member, next: WorkState)
    requires Ready(e) && e.rt.gepa && m.steps == e.before.steps[At(e) := Placeholder(e)] && m.deferred == e.before.deferred
    requires next == WorkState(ParkedHead(e).stage + 1, At(e), e.base.steps, false, None, None, [])
    ensures OptimPlan(e.rt, m, StateRef(next), None).outcome == Failed(StepConflict)
  {
    assert UnresolvedStep(m, next) == None;
    assert RunStep(e.rt, m, next) == StepError([], StepConflict);
  }

  /** What that costs: a later retry from the work state reference takes the placeholder for a finished step,
      and once the rows are in, GEPA's next step meets a conflict, as do the other optimizers' fan-ins. */
  lemma PlaceholderBlocks(e: Episode, rows: set<RowInput>, found: seq<nat>)
    requires Ready(e) && found != []
    requires forall row :: row in JoinOf(e.rt.engine, Intents(e), e.base.stage, ParkedHead(e)).rows ==> row in rows
    requires RowCount(e.rt.engine, Intents(e)) > 0
    ensures !Recoverable(e, AfterResume(e), StateRef(e.base))
    ensures var join := JoinOf(e.rt.engine, Intents(e), e.base.stage, ParkedHead(e));
            var m := AfterResume(e).(rows := rows);
            var fanin := FaninPlan(e.rt, m, join, found, None);
            if e.rt.gepa then
              && fanin.outcome == Merged(join, StepSuccessor(StageRun.Resumption(join)))
              && After(m, fanin).head == Some(StageRun.Resumption(join))
              && OptimPlan(e.rt, After(m, fanin), StateRef(StageRun.Resumption(join)), None).outcome == Failed(StepConflict)
            else
              (join !in m.fanins ==> fanin.outcome == Failed(StepConflict))
  {
    var join := JoinOf(e.rt.engine, Intents(e), e.base.stage, ParkedHead(e));
    var m := AfterResume(e).(rows := rows);
    if e.rt.gepa || join !in m.fanins {
      BlockedIffPlaceholderLeft(e, m, join, found);
      if e.rt.gepa {
        ResumesFrom(e, m, join, found);
      }
    }
  }

  /** Every unparked head of a run is ready for a deferring step, so the results above apply to it. */
  lemma RunsAreReady(engine: Engine, x: StageRun.Machine, output: Output)
    requires StageRun.Reachable(engine, x)
    requires StageRun.Base(x).pending.None? && !StageRun.Base(x).terminal
    requires output.Defer? && output.intents != [] && AllKnown(engine, output.intents)
    ensures Ready(Episode(StageRun.GepaRuntime(engine, output), x.member, StageRun.Base(x)))
  {
    StageRun.ReachableInv(engine, x);
    StageRun.LoadsBase(engine, x);
  }

  /** So is, for the other optimizers, every unparked head at a step that is not bound yet. */
  lemma PlainRunsAreReady(engine: Engine, x: StageRun.Machine, output: Output)
    requires StagePlainRun.PlainReachable(engine, x)
    requires StageRun.Base(x).pending.None? && !StageRun.Base(x).terminal && StageRun.Base(x).stepIndex !in x.member.steps
    requires output.Defer? && output.intents != [] && AllKnown(engine, output.intents)
    ensures Ready(Episode(StagePlainRun.PlainRuntime(engine, output), x.member, StageRun.Base(x)))
  {
    StagePlainRun.PlainReachableInv(engine, x);
    var at := StageRun.Base(x).stepIndex;
    forall i | i in x.member.steps
      ensures i < at
    {
      assert StagePlainRun.Linked(x.member.steps, i);
    }
  }
}
