/** The fate of an attested result while the key is still unbound: which states can lose it to a rejection, and
    which cannot in any continuation. */
module AttestationRace {
  import opened ClaimLog
  import opened ClaimMachine

  /** The thread has passed the check of its lease and is about to bind a rejection. */
  predicate Rejecting(pc: Pc) {
    pc.BindingKey? && !pc.r.Executed()
  }

  ghost predicate RejecterPending(sys: Sys) {
    exists t :: Rejecting(PcOf(sys, t))
  }

  // ---------------------------------------------------------------- what each thread can be doing

  predicate MayCause(role: Role, cause: Cause) {
    role.Heartbeat? ==> cause.Renewal?
  }

  /** A heartbeat thread only renews, and an event about to be bound is what its cause makes it. */
  predicate InRole(t: ThreadId, pc: Pc) {
    match pc
    case Idle => true
    case Raised => true
    case Scanning(_, _, goal) => t.role.Heartbeat? ==> goal.Renewing?
    case Checking(_, _, _, cause) => MayCause(t.role, cause)
    case Stamping(_, _, _, cause) => MayCause(t.role, cause)
    case BindingEvent(event, cause) =>
      MayCause(t.role, cause) && event.owner == t.owner && event.attested == AttestedField(cause)
    case ReadingEvent(_, cause) => MayCause(t.role, cause)
    case _ => t.role.Main?
  }

  /** The points a main thread can be at once its owner has attested: it never evaluates, asserts or rejects again. */
  predicate Settled(pc: Pc) {
    match pc
    case Idle => true
    case ResolveFirst => true
    case Scanning(_, _, goal) => goal.BeforeClaim? || goal.Publishing? || goal.Validating?
    case ReadingEvent(_, cause) => cause.Attestation?
    case BindingKey(r, _) => r.Executed()
    case ReadingWinner(_) => true
    case CheckingHeartbeat(_) => true
    case Returned(_) => true
    case Raised => true
    case _ => false
  }

  predicate EndsAttested(log: seq<Claim>) {
    log != [] && log[|log| - 1].attested.Some?
  }

  predicate ThreadFits(log: seq<Claim>, t: ThreadId, pc: Pc) {
    && InRole(t, pc)
    && (t.role.Main? && EndsAttested(log) && log[|log| - 1].owner == t.owner ==> Settled(pc))
  }

  ghost predicate Fits(sys: Sys) {
    Inv(sys) && forall t :: ThreadFits(sys.store.log, t, PcOf(sys, t))
  }

  // ---------------------------------------------------------------- one step

  lemma AttestedLogEnds(store: Store, clock: real, r: Resolution)
    requires StoreOk(store, clock) && AttestedBy(store.log, r)
    ensures EndsAttested(store.log) && store.log[|store.log| - 1].attested == Some(r) && r.Executed()
  {
    var k :| 0 <= k < |store.log| && store.log[k].attested == Some(r);
    AttestationEndsLog(store.log, clock, k);
    assert Stamped(store.log[k], clock);
  }

  /** Nothing is appended behind an attestation. */
  lemma AttestedLogIsFinal(store: Store, clock: real, owner: Owner, pc: Pc, choice: Choice)
    requires ThreadOk(store, clock, owner, pc) && EndsAttested(store.log)
    ensures Advance(store, clock, owner, pc, choice).store.log == store.log
  {
  }

  lemma ScanFits(store: Store, clock: real, t: ThreadId, latest: Option<Claim>, goal: Goal)
    requires StoreOk(store, clock) && ScanOk(store, |store.log|, latest) && GoalOk(store, goal)
    requires ThreadFits(store.log, t, Scanning(|store.log|, latest, goal))
    ensures ThreadFits(store.log, t, Settle(t.role, AfterScan(latest, goal, t.owner, clock)))
  {
    AfterScanOk(store, clock, t.owner, latest, goal);
  }

  lemma AppendFits(store: Store, clock: real, t: ThreadId, at: nat, cause: Cause)
    requires StoreOk(store, clock) && at < |store.log| && CauseOk(cause)
    requires ThreadFits(store.log, t, ReadingEvent(at, cause))
    ensures ThreadFits(store.log, t, Settle(t.role, AfterAppend(store.log[at], cause, t.owner, clock)))
  {
    assert Stamped(store.log[at], clock);
  }

  lemma EventFits(store: Store, clock: real, t: ThreadId, event: Claim, cause: Cause, choice: Choice)
    requires ThreadOk(store, clock, t.owner, BindingEvent(event, cause))
    requires ThreadFits(store.log, t, BindingEvent(event, cause))
    ensures var moved := Advance(store, clock, t.owner, BindingEvent(event, cause), choice);
            ThreadFits(moved.store.log, t, Settle(t.role, moved.pc))
  {
  }

  lemma AdvanceFits(store: Store, clock: real, t: ThreadId, pc: Pc, choice: Choice)
    requires t.owner.Valid() && StoreOk(store, clock) && ThreadOk(store, clock, t.owner, pc)
    requires ThreadFits(store.log, t, pc)
    ensures var moved := Advance(store, clock, t.owner, pc, choice);
            ThreadFits(moved.store.log, t, Settle(t.role, moved.pc))
  {
    match pc
    case Scanning(at, latest, goal) =>
      if at >= |store.log| {
        ScanFits(store, clock, t, latest, goal);
      } else {
        ScanNeverFails(store.log, clock, at);
      }
    case ReadingEvent(at, cause) => AppendFits(store, clock, t, at, cause);
    case BindingEvent(event, cause) => EventFits(store, clock, t, event, cause, choice);
    case _ =>
  }

  /** A move that changes the log binds an event of the moving thread's own owner; an attestation is a main
      thread's. */
  lemma AdvanceAppends(store: Store, clock: real, t: ThreadId, pc: Pc, choice: Choice)
    requires InRole(t, pc)
    ensures var log := Advance(store, clock, t.owner, pc, choice).store.log;
            log != store.log ==>
              && |log| == |store.log| + 1 && log[|store.log|].owner == t.owner
              && (log[|store.log|].attested.Some? ==> t.role.Main?)
  {
  }

  /** One move of one thread, whatever the environment chooses for it. */
  lemma MoveFits(store: Store, clock: real, t: ThreadId, pc: Pc, choice: Choice)
    requires t.owner.Valid() && StoreOk(store, clock) && ThreadOk(store, clock, t.owner, pc)
    requires ThreadFits(store.log, t, pc)
    ensures var moved := MoveThread(store, clock, t, pc, choice);
            && ThreadFits(moved.store.log, t, moved.pc)
            && (moved.store.log != store.log ==>
                  && |moved.store.log| == |store.log| + 1 && moved.store.log[|store.log|].owner == t.owner
                  && (moved.store.log[|store.log|].attested.Some? ==> t.role.Main?))
  {
    if !(choice.Crash? || pc.Idle? || pc.Raised? || pc.Returned?) {
      AdvanceFits(store, clock, t, pc, choice);
      AdvanceAppends(store, clock, t, pc, choice);
    }
  }

  /** What another thread's move leaves true. */
  lemma OthersKeepFit(before: seq<Claim>, after: seq<Claim>, mover: ThreadId, t: ThreadId, pc: Pc)
    requires ThreadFits(before, t, pc) && t != mover
    requires after != before ==>
               && |after| == |before| + 1 && after[|before|].owner == mover.owner
               && (after[|before|].attested.Some? ==> mover.role.Main?)
    ensures ThreadFits(after, t, pc)
  {
  }

  lemma ThreadIsOk(sys: Sys, t: ThreadId)
    requires Inv(sys)
    ensures ThreadOk(sys.store, sys.clock, t.owner, PcOf(sys, t))
  {
  }

  lemma ApplyFits(sys: Sys, event: Event)
    requires Fits(sys)
    ensures Fits(Apply(sys, event))
  {
    ApplyKeepsInv(sys, event);
    ApplyKeepsFit(sys, event);
  }

  lemma ApplyKeepsFit(sys: Sys, event: Event)
    requires Fits(sys)
    ensures forall t :: ThreadFits(Apply(sys, event).store.log, t, PcOf(Apply(sys, event), t))
  {
    var after := Apply(sys, event);
    if event.Act? && event.thread.owner.Valid() {
      var mover := event.thread;
      ThreadIsOk(sys, mover);
      MoveFits(sys.store, sys.clock, mover, PcOf(sys, mover), event.choice);
      forall t
        ensures ThreadFits(after.store.log, t, PcOf(after, t))
      {
        assert ThreadFits(sys.store.log, t, PcOf(sys, t));
        if t != mover {
          OthersKeepFit(sys.store.log, after.store.log, mover, t, PcOf(sys, t));
        }
      }
    } else {
      assert after.store == sys.store && forall t :: PcOf(after, t) == PcOf(sys, t);
    }
  }

  lemma {:induction false} RunFits(events: seq<Event>)
    ensures Fits(Run(events))
  {
    if events != [] {
      RunFits(events[..|events| - 1]);
      ApplyFits(Run(events[..|events| - 1]), events[|events| - 1]);
    }
  }

  // ---------------------------------------------------------------- a rejection has to be under way already

  /** Behind an attestation no scan clears a rejection: a foreign owner finds its lease lost, and the attesting
      owner no longer asserts. */
  lemma NoNewRejection(store: Store, clock: real, t: ThreadId, pc: Pc, choice: Choice)
    requires StoreOk(store, clock) && ThreadOk(store, clock, t.owner, pc)
    requires ThreadFits(store.log, t, pc) && EndsAttested(store.log) && !Rejecting(pc)
    ensures var moved := Advance(store, clock, t.owner, pc, choice);
            && moved.store.log == store.log && !Rejecting(moved.pc)
            && (moved.store.bound != store.bound ==> store.bound == None && moved.store.bound.value.Executed())
  {
    AttestedLogIsFinal(store, clock, t.owner, pc, choice);
    if pc.Scanning? && pc.at >= |store.log| {
      ScanSeesAttestation(store, clock, pc.latest);
    } else if pc.ReadingEvent? {
      assert Stamped(store.log[pc.at], clock);
    }
  }

  /** The key is unbound or holds the attested result, and no rejection is under way. */
  ghost predicate Prevails(sys: Sys, attested: Resolution) {
    sys.store.bound == Some(attested) || (sys.store.bound == None && !RejecterPending(sys))
  }

  lemma MoveRejectsNothing(store: Store, clock: real, t: ThreadId, pc: Pc, choice: Choice)
    requires StoreOk(store, clock) && ThreadOk(store, clock, t.owner, pc)
    requires ThreadFits(store.log, t, pc) && EndsAttested(store.log) && !Rejecting(pc)
    ensures var moved := MoveThread(store, clock, t, pc, choice);
            && moved.store.log == store.log && !Rejecting(moved.pc)
            && (moved.store.bound != store.bound ==> store.bound == None && moved.store.bound.value.Executed())
  {
    if !(choice.Crash? || pc.Idle? || pc.Raised? || pc.Returned?) {
      NoNewRejection(store, clock, t, pc, choice);
    }
  }

  lemma ApplyPrevails(sys: Sys, event: Event, attested: Resolution)
    requires Fits(sys) && AttestedBy(sys.store.log, attested) && Prevails(sys, attested)
    ensures AttestedBy(Apply(sys, event).store.log, attested) && Prevails(Apply(sys, event), attested)
  {
    ApplyKeepsInv(sys, event);
    AttestedPersists(sys.store, Apply(sys, event).store, attested);
    if sys.store.bound == None {
      if event.Act? && event.thread.owner.Valid() {
        ActPrevails(sys, event.thread, event.choice, attested);
      } else {
        assert forall t :: PcOf(Apply(sys, event), t) == PcOf(sys, t);
      }
    }
  }

  lemma ActPrevails(sys: Sys, mover: ThreadId, choice: Choice, attested: Resolution)
    requires Fits(sys) && AttestedBy(sys.store.log, attested) && sys.store.bound == None && !RejecterPending(sys)
    requires mover.owner.Valid() && Inv(Apply(sys, Act(mover, choice)))
    ensures Prevails(Apply(sys, Act(mover, choice)), attested)
  {
    var after := Apply(sys, Act(mover, choice));
    AttestedLogEnds(sys.store, sys.clock, attested);
    ThreadIsOk(sys, mover);
    assert ThreadFits(sys.store.log, mover, PcOf(sys, mover)) && !Rejecting(PcOf(sys, mover));
    MoveRejectsNothing(sys.store, sys.clock, mover, PcOf(sys, mover), choice);
    if after.store.bound.Some? {
      AttestedLogEnds(after.store, after.clock, after.store.bound.value);
    }
    OthersRejectNothing(sys, after, mover);
  }

  lemma OthersRejectNothing(sys: Sys, after: Sys, mover: ThreadId)
    requires !RejecterPending(sys) && !Rejecting(PcOf(after, mover))
    requires forall t :: t != mover ==> PcOf(after, t) == PcOf(sys, t)
    ensures !RejecterPending(after)
  {
    forall t
      ensures !Rejecting(PcOf(after, t))
    {
      assert !Rejecting(PcOf(sys, t));
    }
  }

  lemma {:induction false} RunPrevails(events: seq<Event>, more: seq<Event>, attested: Resolution)
    requires AttestedBy(Run(events).store.log, attested) && Prevails(Run(events), attested)
    ensures AttestedBy(Run(events + more).store.log, attested) && Prevails(Run(events + more), attested)
    decreases |more|
  {
    if more == [] {
      assert events + more == events;
    } else {
      var most, next := more[..|more| - 1], more[|more| - 1];
      RunPrevails(events, most, attested);
      RunFits(events + most);
      RunExtends(events + most, next);
      assert events + more == (events + most) + [next];
      ApplyPrevails(Run(events + most), next, attested);
    }
  }

  lemma RunExtends(events: seq<Event>, next: Event)
    ensures Run(events + [next]) == Apply(Run(events), next)
  {
    assert (events + [next])[..|events + [next]| - 1] == events;
  }

  // ---------------------------------------------------------------- the exact condition

  ghost predicate RejectionCanWin(events: seq<Event>) {
    exists more :: BindsRejection(Run(events + more))
  }

  predicate BindsRejection(sys: Sys) {
    sys.store.bound.Some? && !sys.store.bound.value.Executed()
  }

  /** From a state with an attestation and an unbound key, some continuation binds a rejection exactly when some
      thread is already past the check of its lease with a rejection in hand. */
  lemma RejectionWinsIffPending(events: seq<Event>, attested: Resolution)
    requires AttestedBy(Run(events).store.log, attested) && Run(events).store.bound == None
    ensures RejectionCanWin(events) <==> RejecterPending(Run(events))
  {
    var sys := Run(events);
    RunKeepsInv(events);
    AttestedLogEnds(sys.store, sys.clock, attested);
    if RejecterPending(sys) {
      var t :| Rejecting(PcOf(sys, t));
      RunExtends(events, Act(t, Go));
      assert BindsRejection(Run(events + [Act(t, Go)]));
    } else {
      forall more
        ensures !BindsRejection(Run(events + more))
      {
        RunPrevails(events, more, attested);
      }
    }
  }

  /** The attested result is the only one the key can ever hold exactly when the key holds it already, or is
      unbound with no rejection under way. */
  lemma AttestedPrevailsIff(events: seq<Event>, attested: Resolution)
    requires AttestedBy(Run(events).store.log, attested)
    ensures (forall more :: Run(events + more).store.bound in {None, Some(attested)}) <==> Prevails(Run(events), attested)
  {
    var sys := Run(events);
    if Prevails(sys, attested) {
      forall more
        ensures Run(events + more).store.bound in {None, Some(attested)}
      {
        RunPrevails(events, more, attested);
      }
    } else if sys.store.bound == None {
      RejectionWinsIffPending(events, attested);
      var more :| BindsRejection(Run(events + more));
      RunKeepsInv(events);
      AttestedLogEnds(sys.store, sys.clock, attested);
      assert Run(events + more).store.bound !in {None, Some(attested)};
    } else {
      assert events + [] == events;
      assert Run(events + []).store.bound !in {None, Some(attested)};
    }
  }

  /** The rejection that can still win is always another owner's: its lease was taken over and spent. */
  lemma RejecterIsForeign(events: seq<Event>, t: ThreadId)
    requires EndsAttested(Run(events).store.log) && Rejecting(PcOf(Run(events), t))
    ensures t.role.Main? && t.owner != Run(events).store.log[|Run(events).store.log| - 1].owner
  {
    RunFits(events);
    assert ThreadFits(Run(events).store.log, t, PcOf(Run(events), t));
  }

  // ---------------------------------------------------------------- the attested result can always still win

  lemma Move(events: seq<Event>, t: ThreadId, choice: Choice) returns (longer: seq<Event>)
    requires t.owner.Valid()
    ensures longer == events + [Act(t, choice)] && Run(longer).clock == Run(events).clock
    ensures Moved(Run(longer).store, PcOf(Run(longer), t))
            == MoveThread(Run(events).store, Run(events).clock, t, PcOf(Run(events), t), choice)
  {
    longer := events + [Act(t, choice)];
    RunExtends(events, Act(t, choice));
  }

  /** A main thread that is left alone completes its scan. */
  lemma {:induction false} ScanThrough(events: seq<Event>, t: ThreadId, at: nat, latest: Option<Claim>, goal: Goal)
    returns (longer: seq<Event>)
    requires t.owner.Valid() && t.role.Main? && PcOf(Run(events), t) == Scanning(at, latest, goal)
    requires ScanOk(Run(events).store, at, latest)
    ensures events <= longer && Run(longer).store == Run(events).store
    ensures exists last, clock ::
              ScanOk(Run(events).store, |Run(events).store.log|, last)
              && PcOf(Run(longer), t) == AfterScan(last, goal, t.owner, clock)
    decreases |Run(events).store.log| - at
  {
    var store := Run(events).store;
    RunKeepsInv(events);
    longer := Move(events, t, Go);
    if at == |store.log| {
      assert ScanOk(store, |store.log|, latest);
    } else {
      ScanNeverFails(store.log, Run(events).clock, at);
      longer := ScanThrough(longer, t, at + 1, Some(store.log[at]), goal);
    }
  }

  /** A call reaches the scan for an attestation. */
  lemma CallScans(events: seq<Event>, t: ThreadId) returns (longer: seq<Event>)
    requires t.owner.Valid() && t.role.Main? && Run(events).store.bound == None
    ensures events <= longer && Run(longer).store == Run(events).store
    ensures PcOf(Run(longer), t) == Rescan(BeforeClaim)
  {
    NoDefectIsReachable(events, t);
    longer := Move(events, t, Crash);
    longer := Move(longer, t, Call);
    longer := Move(longer, t, Go);
  }

  lemma FindsAttested(store: Store, clock: real, now: real, owner: Owner, last: Option<Claim>, attested: Resolution)
    requires StoreOk(store, clock) && ScanOk(store, |store.log|, last) && AttestedBy(store.log, attested)
    ensures AfterScan(last, BeforeClaim, owner, now) == Rescan(Validating(attested, ToBind, false))
    ensures AfterScan(last, Validating(attested, ToBind, false), owner, now) == BindingKey(attested, false)
  {
    AttestedLogEnds(store, clock, attested);
  }

  /** The scan finds the attestation, and the result it names passes validation. */
  lemma ScanFinds(events: seq<Event>, t: ThreadId, goal: Goal, next: Pc, attested: Resolution) returns (longer: seq<Event>)
    requires t.owner.Valid() && t.role.Main? && AttestedBy(Run(events).store.log, attested)
    requires PcOf(Run(events), t) == Rescan(goal)
    requires (goal, next) == (BeforeClaim, Rescan(Validating(attested, ToBind, false)))
             || (goal, next) == (Validating(attested, ToBind, false), BindingKey(attested, false))
    ensures events <= longer && Run(longer).store == Run(events).store && PcOf(Run(longer), t) == next
  {
    var store := Run(events).store;
    RunKeepsInv(events);
    longer := ScanThrough(events, t, 0, None, goal);
    var last, clock :| ScanOk(store, |store.log|, last)
                       && PcOf(Run(longer), t) == AfterScan(last, goal, t.owner, clock);
    FindsAttested(store, Run(events).clock, clock, t.owner, last, attested);
  }

  /** A thread that calls while the attestation is in the log and the key unbound, and is left alone, binds it. */
  lemma AttestedCanStillWin(events: seq<Event>, attested: Resolution)
    requires AttestedBy(Run(events).store.log, attested) && Run(events).store.bound == None
    ensures exists more :: Run(events + more).store.bound == Some(attested)
  {
    var t := ThreadId(Owner(0, 1.0), Main);
    var called := CallScans(events, t);
    var found := ScanFinds(called, t, BeforeClaim, Rescan(Validating(attested, ToBind, false)), attested);
    var ready := ScanFinds(found, t, Validating(attested, ToBind, false), BindingKey(attested, false), attested);
    BindNow(events, ready, t, attested);
  }

  lemma BindNow(events: seq<Event>, ready: seq<Event>, t: ThreadId, r: Resolution)
    requires t.owner.Valid() && events <= ready && Run(ready).store.bound == None && PcOf(Run(ready), t) == BindingKey(r, false)
    ensures exists more :: Run(events + more).store.bound == Some(r)
  {
    var longer := Move(ready, t, Go);
    assert events + longer[|events|..] == longer;
  }
}
