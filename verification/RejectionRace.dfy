/** A run in which a rejection is bound although the claim log ends in the attestation of an
    executed result: the lease of a rejecting resolver is checked, then lost, then used. */
module RejectionRace {
  import opened ClaimLog
  import opened ClaimMachine

  ghost predicate Reachable(sys: Sys) {
    exists events :: Run(events) == sys
  }

  function Last(log: seq<Claim>): Option<Claim> {
    if |log| == 0 then None else Some(log[|log| - 1])
  }

  /** One step of a thread, described by what it does to the store and to each thread. */
  lemma Step(sys: Sys, thread: ThreadId, other: ThreadId, choice: Choice) returns (after: Sys)
    requires Reachable(sys) && thread.owner.Valid() && other != thread
    ensures Reachable(after) && after.clock == sys.clock
    ensures Moved(after.store, PcOf(after, thread)) == MoveThread(sys.store, sys.clock, thread, PcOf(sys, thread), choice)
    ensures PcOf(after, other) == PcOf(sys, other)
  {
    var events :| Run(events) == sys;
    after := Apply(sys, Act(thread, choice));
    var more := events + [Act(thread, choice)];
    assert more[..|more| - 1] == events;
    assert Run(more) == after;
  }

  lemma Wait(sys: Sys, elapsed: real) returns (after: Sys)
    requires Reachable(sys) && elapsed >= 0.0
    ensures Reachable(after) && after.clock == sys.clock + elapsed && after.store == sys.store
    ensures forall t :: PcOf(after, t) == PcOf(sys, t)
  {
    var events :| Run(events) == sys;
    after := Apply(sys, Tick(elapsed));
    var more := events + [Tick(elapsed)];
    assert more[..|more| - 1] == events;
    assert Run(more) == after;
  }

  /** A main thread that is left alone completes its scan. */
  lemma {:induction false} Scan(sys: Sys, thread: ThreadId, other: ThreadId, at: nat, goal: Goal) returns (after: Sys)
    requires Reachable(sys) && thread.owner.Valid() && thread.role.Main? && at <= |sys.store.log| && other != thread
    requires PcOf(sys, thread) == Scanning(at, Last(sys.store.log[..at]), goal)
    ensures Reachable(after) && after.clock == sys.clock && after.store == sys.store
    ensures PcOf(after, thread) == AfterScan(Last(sys.store.log), goal, thread.owner, sys.clock)
    ensures PcOf(after, other) == PcOf(sys, other)
    decreases |sys.store.log| - at
  {
    var next := Step(sys, thread, other, Go);
    if at == |sys.store.log| {
      assert sys.store.log[..at] == sys.store.log;
      after := next;
    } else {
      var events :| Run(events) == sys;
      RunKeepsInv(events);
      ScanNeverFails(sys.store.log, sys.clock, at);
      after := Scan(next, thread, other, at + 1, goal);
    }
  }

  /** Nobody holds a live claim that `owner` would have to wait for. */
  predicate Claimable(sys: Sys, owner: Owner) {
    && sys.store.bound == None
    && (sys.store.log == []
        || (Last(sys.store.log).value.attested.None? && Last(sys.store.log).value.owner != owner
            && Last(sys.store.log).value.expiresAt <= sys.clock))
  }

  /** The log ends with a live claim of `owner` for generation `held`. */
  predicate HeldBy(sys: Sys, owner: Owner, held: nat) {
    && sys.store.bound == None && |sys.store.log| > 0
    && var last := Last(sys.store.log).value;
       last.owner == owner && last.generation == held && last.attested.None?
       && last.expiresAt == sys.clock + owner.lease
  }

  /** A call reaches the loop of `_claim` and learns that it has to append an event. */
  lemma ReachAppend(sys: Sys, thread: ThreadId, other: ThreadId) returns (after: Sys)
    requires Reachable(sys) && thread.owner.Valid() && thread.role.Main? && other != thread
    requires PcOf(sys, thread) == Idle && Claimable(sys, thread.owner)
    ensures Reachable(after) && after.clock == sys.clock && after.store == sys.store
    ensures PcOf(after, other) == PcOf(sys, other)
    ensures PcOf(after, thread) ==
              if sys.store.log == [] then Checking(None, 0, 0, FirstClaim)
              else Checking(Last(sys.store.log), Last(sys.store.log).value.generation + 1, 0, Takeover)
  {
    after := Step(sys, thread, other, Call);
    after := Step(after, thread, other, Go);
    after := Scan(after, thread, other, 0, BeforeClaim);
    after := Step(after, thread, other, Go);
    after := Scan(after, thread, other, 0, Claiming);
  }

  /** An owner that finds no live claim claims the intent. */
  lemma ClaimIntent(sys: Sys, thread: ThreadId, other: ThreadId) returns (after: Sys, held: nat)
    requires Reachable(sys) && thread.owner.Valid() && thread.role.Main? && other != thread
    requires PcOf(sys, thread) == Idle && Claimable(sys, thread.owner)
    ensures Reachable(after) && after.clock == sys.clock && sys.store.log < after.store.log
    ensures HeldBy(after, thread.owner, held)
    ensures PcOf(after, thread) == ResolveSecond(Some(held))
    ensures PcOf(after, other) == PcOf(sys, other)
  {
    LastOrdinal(sys);
    var log := sys.store.log;
    var s0 := ReachAppend(sys, thread, other);
    var prior, cause := Last(log), if log == [] then FirstClaim else Takeover;
    held := if log == [] then 0 else prior.value.generation + 1;
    after := Append(s0, thread, other, prior, held, 0, cause);
  }

  lemma LastOrdinal(sys: Sys)
    requires Reachable(sys)
    ensures sys.store.log != [] ==> Last(sys.store.log).value.ordinal == |sys.store.log| - 1
  {
    var events :| Run(events) == sys;
    RunKeepsInv(events);
  }

  /** An admitted append that nobody interrupts: stamp, bind at the end of the log, read back. */
  lemma Append(sys: Sys, thread: ThreadId, other: ThreadId, prior: Option<Claim>, generation: nat, heartbeat: nat, cause: Cause)
    returns (after: Sys)
    requires Reachable(sys) && thread.owner.Valid() && thread.role.Main? && other != thread
    requires PcOf(sys, thread) == Checking(prior, generation, heartbeat, cause)
    requires prior == Last(sys.store.log)
    requires prior.Some? ==> prior.value.ordinal == |sys.store.log| - 1
    requires CheckAppend(prior, thread.owner, generation, heartbeat, sys.clock) == Admit(|sys.store.log|)
    ensures Reachable(after) && after.clock == sys.clock && after.store.bound == sys.store.bound
    ensures after.store.log == sys.store.log + [Claim(
              thread.owner, |sys.store.log|, generation, heartbeat, sys.clock + thread.owner.lease, AttestedField(cause))]
    ensures PcOf(after, thread) == AfterAppend(Last(after.store.log).value, cause, thread.owner, sys.clock)
    ensures PcOf(after, other) == PcOf(sys, other)
  {
    var s1 := Step(sys, thread, other, Go);
    assert PcOf(s1, thread) == Stamping(prior, generation, heartbeat, cause);
    var s2 := Step(s1, thread, other, Go);
    var s3 := Step(s2, thread, other, Go);
    after := Step(s3, thread, other, Go);
  }

  /** An owner that was cleared to extend its own live claim does so. */
  lemma AppendOwn(sys: Sys, thread: ThreadId, other: ThreadId, cause: Cause) returns (after: Sys)
    requires Reachable(sys) && thread.owner.Valid() && thread.role.Main? && other != thread
    requires cause.Renewal? || cause.Attestation?
    requires HeldBy(sys, thread.owner, cause.held)
    requires PcOf(sys, thread) == Checking(Last(sys.store.log), cause.held, Last(sys.store.log).value.heartbeat + 1, cause)
    ensures Reachable(after) && after.clock == sys.clock && after.store.bound == None
    ensures after.store.log == sys.store.log + [Claim(
              thread.owner, |sys.store.log|, cause.held, Last(sys.store.log).value.heartbeat + 1,
              sys.clock + thread.owner.lease, AttestedField(cause))]
    ensures PcOf(after, thread) == AfterAppend(Last(after.store.log).value, cause, thread.owner, sys.clock)
    ensures PcOf(after, other) == PcOf(sys, other)
  {
    LastOrdinal(sys);
    after := Append(sys, thread, other, Last(sys.store.log), cause.held, Last(sys.store.log).value.heartbeat + 1, cause);
  }

  /** An owner of a live claim renews it once and starts to evaluate. */
  lemma StartEvaluation(sys: Sys, thread: ThreadId, other: ThreadId, held: nat) returns (after: Sys)
    requires Reachable(sys) && thread.owner.Valid() && thread.role.Main? && other != thread
    requires HeldBy(sys, thread.owner, held) && PcOf(sys, thread) == ResolveSecond(Some(held))
    ensures Reachable(after) && after.clock == sys.clock && sys.store.log < after.store.log
    ensures HeldBy(after, thread.owner, held)
    ensures PcOf(after, thread) == Evaluating(held)
    ensures PcOf(after, other) == PcOf(sys, other)
  {
    var s1 := Step(sys, thread, other, Go);
    var s2 := Scan(s1, thread, other, 0, AfterClaim(Some(held)));
    var s3 := Scan(s2, thread, other, 0, Renewing(held));
    var s4 := AppendOwn(s3, thread, other, Renewal(held));
    after := AssertHeld(s4, thread, other, held);
  }

  /** The checks between the first renewal and the evaluation. */
  lemma AssertHeld(sys: Sys, thread: ThreadId, other: ThreadId, held: nat) returns (after: Sys)
    requires Reachable(sys) && thread.owner.Valid() && thread.role.Main? && other != thread
    requires HeldBy(sys, thread.owner, held) && PcOf(sys, thread) == Scanning(0, None, Asserting(held, ThenResolve))
    ensures Reachable(after) && after.clock == sys.clock && after.store == sys.store
    ensures PcOf(after, thread) == Evaluating(held)
    ensures PcOf(after, other) == PcOf(sys, other)
  {
    var s5 := Scan(sys, thread, other, 0, Asserting(held, ThenResolve));
    var s6 := Step(s5, thread, other, Go);
    after := Scan(s6, thread, other, 0, Asserting(held, ThenEvaluate));
  }

  /** The slow owner's rejection has passed its lease check and is about to be bound. */
  lemma CheckRejection(sys: Sys, thread: ThreadId, other: ThreadId, rejected: Resolution) returns (after: Sys)
    requires Reachable(sys) && thread.owner.Valid() && thread.role.Main? && other != thread
    requires PcOf(sys, thread) == Idle && Claimable(sys, thread.owner) && !rejected.Executed()
    ensures Reachable(after) && after.clock == sys.clock
    ensures exists held :: HeldBy(after, thread.owner, held)
    ensures PcOf(after, thread) == BindingKey(rejected, true)
    ensures PcOf(after, other) == PcOf(sys, other)
  {
    var s0, held := ClaimIntent(sys, thread, other);
    var s1 := StartEvaluation(s0, thread, other, held);
    var s2 := Step(s1, thread, other, Produce(rejected));
    after := Scan(s2, thread, other, 0, Asserting(held, ThenBind(rejected)));
    assert HeldBy(after, thread.owner, held);
  }

  /** The fast owner's result is attested and about to be bound. */
  lemma AttestResult(sys: Sys, thread: ThreadId, other: ThreadId, completed: Resolution) returns (after: Sys)
    requires Reachable(sys) && thread.owner.Valid() && thread.role.Main? && other != thread
    requires PcOf(sys, thread) == Idle && Claimable(sys, thread.owner) && completed.Executed()
    ensures Reachable(after) && after.clock == sys.clock && after.store.bound == None
    ensures AttestedBy(after.store.log, completed)
    ensures PcOf(after, thread) == BindingKey(completed, true)
    ensures PcOf(after, other) == PcOf(sys, other)
  {
    var s0, held := ClaimIntent(sys, thread, other);
    var s1 := StartEvaluation(s0, thread, other, held);
    var s2 := Step(s1, thread, other, Produce(completed));
    after := PublishAndCheck(s2, thread, other, held, completed);
  }

  /** The attestation is appended, and the check before the binding finds it. */
  lemma PublishAndCheck(sys: Sys, thread: ThreadId, other: ThreadId, held: nat, completed: Resolution) returns (after: Sys)
    requires Reachable(sys) && thread.owner.Valid() && thread.role.Main? && other != thread && completed.Executed()
    requires HeldBy(sys, thread.owner, held) && PcOf(sys, thread) == Scanning(0, None, Publishing(held, completed))
    ensures Reachable(after) && after.clock == sys.clock && after.store.bound == None
    ensures AttestedBy(after.store.log, completed)
    ensures PcOf(after, thread) == BindingKey(completed, true)
    ensures PcOf(after, other) == PcOf(sys, other)
  {
    var s3 := Scan(sys, thread, other, 0, Publishing(held, completed));
    var s4 := AppendOwn(s3, thread, other, Attestation(held, completed));
    assert s4.store.log[|s4.store.log| - 1].attested == Some(completed);
    after := Scan(s4, thread, other, 0, Validating(completed, ToBind, true));
  }

  /** With both results about to be bound, the rejection goes first. */
  lemma RejectFirst(sys: Sys, slow: ThreadId, fast: ThreadId, completed: Resolution, rejected: Resolution)
    returns (events: seq<Event>)
    requires Reachable(sys) && slow.owner.Valid() && fast.owner.Valid() && slow != fast
    requires slow.role.Main? && fast.role.Main? && sys.store.bound == None
    requires completed.Executed() && !rejected.Executed() && AttestedBy(sys.store.log, completed)
    requires PcOf(sys, slow) == BindingKey(rejected, true) && PcOf(sys, fast) == BindingKey(completed, true)
    ensures Run(events).store == sys.store.(bound := Some(rejected))
    ensures PcOf(Run(events), fast) == CheckingHeartbeat(rejected)
  {
    var s1 := Step(sys, slow, fast, Go);
    assert s1.store == sys.store.(bound := Some(rejected)) && PcOf(s1, fast) == BindingKey(completed, true);
    var s2 := Step(s1, fast, slow, Go);
    assert PcOf(s2, fast) == ReadingWinner(true);
    var s3 := Step(s2, fast, slow, Go);
    events :| Run(events) == s3;
  }

  /** Attested does not imply bound: there is a run whose log ends in the attestation of a completed
      result while the key holds a rejection, which the attesting owner's own call then accepts. */
  lemma RejectionOvertakesAttestation() returns (events: seq<Event>, completed: Resolution, rejected: Resolution)
    ensures completed.outcome == Completed && rejected.outcome == Rejected
    ensures AttestedBy(Run(events).store.log, completed)
    ensures Run(events).store.bound == Some(rejected)
    ensures PcOf(Run(events), ThreadId(Owner(2, 1.0), Main)) == CheckingHeartbeat(rejected)
  {
    completed, rejected := Resolution(Completed, 7), Resolution(Rejected, 0);
    var slow, fast := ThreadId(Owner(1, 1.0), Main), ThreadId(Owner(2, 1.0), Main);
    assert Run([]) == INITIAL;
    var s0 := CheckRejection(INITIAL, slow, fast, rejected);
    var s1 := Wait(s0, 2.0);
    assert PcOf(s1, fast) == Idle && Claimable(s1, fast.owner);
    var s2 := AttestResult(s1, fast, slow, completed);
    events := RejectFirst(s2, slow, fast, completed, rejected);
  }
}
