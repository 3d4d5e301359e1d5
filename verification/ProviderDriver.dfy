/** The retry loop of one provider call, its backoff schedule, and the deadline that guards it. */
module ProviderDriver {

  datatype Backoff = Backoff(base: real, multiplier: real, max: real) {
    predicate Valid() { 0.0 <= base && multiplier >= 1.0 && max >= base }
  }

  function Power(x: real, n: nat): real {
    if n == 0 then 1.0 else x * Power(x, n - 1)
  }

  /** `delay_for`: no delay before the first attempt, then a capped geometric schedule. */
  function DelayFor(b: Backoff, attempt: nat): real
    requires attempt >= 1
  {
    if attempt == 1 then 0.0
    else if b.base == 0.0 || b.multiplier == 1.0 || b.base == b.max then b.base
    else
      var delay := b.base * Power(b.multiplier, attempt - 2);
      if delay < b.max then delay else b.max
  }

  lemma {:induction false} PowerGrows(x: real, n: nat)
    requires x >= 1.0
    ensures 1.0 <= Power(x, n) <= Power(x, n + 1)
  {
    if n > 0 {
      PowerGrows(x, n - 1);
    }
    Scale(x, Power(x, n));
  }

  lemma Scale(x: real, p: real)
    requires x >= 1.0 && p >= 1.0
    ensures x * p >= p
  {
    assert (x - 1.0) * p >= 0.0;
  }

  /** Delays never decrease, never exceed the maximum, and the second one is the base. */
  lemma DelaysGrow(b: Backoff, attempt: nat)
    requires b.Valid() && attempt >= 1
    ensures 0.0 <= DelayFor(b, attempt) <= DelayFor(b, attempt + 1) <= b.max
    ensures DelayFor(b, 2) == b.base
  {
    assert Power(b.multiplier, 0) == 1.0;
    if attempt > 1 {
      var p, q := Power(b.multiplier, attempt - 2), Power(b.multiplier, attempt - 1);
      PowerGrows(b.multiplier, attempt - 2);
      assert b.base * (q - p) >= 0.0;
      assert b.base * p >= 0.0;
    } else {
      assert b.base * 1.0 == b.base;
    }
  }

  lemma {:induction false} DelaysGrowFrom(b: Backoff, early: nat, late: nat)
    requires b.Valid() && 1 <= early <= late
    ensures DelayFor(b, early) <= DelayFor(b, late)
  {
    if early < late {
      DelaysGrowFrom(b, early, late - 1);
      DelaysGrow(b, late - 1);
    }
  }

  function Least(a: real, b: real): real { if a < b then a else b }

  lemma ScaledOnce(base: real, x: real, p: real, max: real)
    requires base >= 0.0 && x >= 1.0 && p >= 1.0 && max >= 0.0
    ensures base * (x * p) == base * p * x && base * p <= base * p * x && max <= max * x
  {
    var d := base * p;
    assert base * (x * p) == d * x;
    assert d >= 0.0;
    assert d * (x - 1.0) >= 0.0 && max * (x - 1.0) >= 0.0;
  }

  /** From the second attempt on each delay is the one before it times the multiplier, up to the maximum. */
  lemma DelaysMultiply(b: Backoff, attempt: nat)
    requires b.Valid() && attempt >= 2
    ensures DelayFor(b, attempt + 1) == Least(DelayFor(b, attempt) * b.multiplier, b.max)
  {
    var p := Power(b.multiplier, attempt - 2);
    assert Power(b.multiplier, attempt - 1) == b.multiplier * p;
    PowerGrows(b.multiplier, attempt - 2);
    ScaledOnce(b.base, b.multiplier, p, b.max);
  }

  // ---------------------------------------------------------------- the retry loop

  datatype FailureClass = TransportError | RateLimit | Timeout | ProviderRejection | BlankGeneration | MalformedResponse

  datatype Policy = Policy(maxAttempts: nat, retryable: set<FailureClass>, backoff: Backoff, timeout: real) {
    predicate Valid() { maxAttempts >= 1 && backoff.Valid() && timeout > 0.0 }
  }

  datatype Outcome = Generation(text: nat) | SemanticFailure(kind: FailureClass)

  /** What the transport does on one call: how long it takes, and whether its evidence names the request and the
      policy it was called with. */
  datatype Reply = Reply(duration: real, matches: bool, outcome: Outcome)

  datatype Attempt = Attempt(number: nat, startedAt: real, endedAt: real, outcome: Outcome)

  datatype CallResult = CallResult(attempts: seq<Attempt>) | Mismatch

  /** The clock, the transport and the log of attempts of one logical call. */
  class Driver {
    const policy: Policy
    const transport: nat -> Reply
    var now: real
    var slept: real
    var called: real

    constructor (policy: Policy, transport: nat -> Reply, now: real)
      ensures this.policy == policy && this.transport == transport
      ensures this.now == now && slept == 0.0 && called == 0.0
    {
      this.policy, this.transport, this.now := policy, transport, now;
      slept, called := 0.0, 0.0;
    }

    method Sleep(delay: real)
      modifies this
      ensures now == old(now) + delay && slept == old(slept) + delay && called == old(called)
    {
      now, slept := now + delay, slept + delay;
    }

    method Call(number: nat) returns (reply: Reply)
      modifies this
      ensures reply == transport(number)
      ensures now == old(now) + reply.duration && called == old(called) + reply.duration && slept == old(slept)
    {
      reply := transport(number);
      now, called := now + reply.duration, called + reply.duration;
    }

    /** `_Driver.run`. */
    method Run() returns (result: CallResult)
      requires policy.Valid()
      modifies this
      ensures result == Results(policy, transport, old(now), 1, [])
      ensures slept - old(slept) == Delays(policy, Calls(policy, transport, 1))
      ensures called - old(called) == Durations(transport, Calls(policy, transport, 1))
      ensures now == old(now) + (slept - old(slept)) + (called - old(called))
    {
      var attempts: seq<Attempt> := [];
      var number := 1;
      while number <= policy.maxAttempts
        invariant 1 <= number <= policy.maxAttempts + 1 && |attempts| == number - 1
        invariant number > policy.maxAttempts ==> Calls(policy, transport, 1) == number - 1
        invariant number <= policy.maxAttempts ==> Calls(policy, transport, 1) == Calls(policy, transport, number)
        invariant Results(policy, transport, old(now), 1, []) == Results(policy, transport, now, number, attempts)
        invariant slept - old(slept) == Delays(policy, number - 1)
        invariant called - old(called) == Durations(transport, number - 1)
        invariant now == old(now) + (slept - old(slept)) + (called - old(called))
      {
        var delay := DelayFor(policy.backoff, number);
        DelaysGrow(policy.backoff, number);
        if delay > 0.0 { Sleep(delay); }
        var startedAt := now;
        var reply := Call(number);
        if !reply.matches { return Mismatch; }
        var attempt := Attempt(number, startedAt, now, reply.outcome);
        attempts := attempts + [attempt];
        if reply.outcome.Generation? { return CallResult(attempts); }
        if reply.outcome.kind !in policy.retryable { return CallResult(attempts); }
        number := number + 1;
      }
      return CallResult(attempts);
    }
  }

  /** The reply ends the loop. */
  predicate Final(policy: Policy, reply: Reply) {
    !reply.matches || reply.outcome.Generation? || reply.outcome.kind !in policy.retryable
  }

  /** The attempts recorded from one attempt on. */
  function Results(policy: Policy, transport: nat -> Reply, now: real, number: nat, attempts: seq<Attempt>): CallResult
    requires number >= 1
    decreases policy.maxAttempts + 1 - number
  {
    if number > policy.maxAttempts then CallResult(attempts)
    else
      var reply, start := transport(number), now + DelayFor(policy.backoff, number);
      if !reply.matches then Mismatch
      else
        var more := attempts + [Attempt(number, start, start + reply.duration, reply.outcome)];
        if Final(policy, reply) then CallResult(more)
        else Results(policy, transport, start + reply.duration, number + 1, more)
  }

  /** How many calls the loop makes in all, once it has reached an attempt. */
  function Calls(policy: Policy, transport: nat -> Reply, number: nat): nat
    requires 1 <= number <= policy.maxAttempts
    decreases policy.maxAttempts - number
  {
    if Final(policy, transport(number)) || number == policy.maxAttempts then number
    else Calls(policy, transport, number + 1)
  }

  /** The time slept before the first `n` attempts. */
  function Delays(policy: Policy, n: nat): real {
    if n == 0 then 0.0 else Delays(policy, n - 1) + DelayFor(policy.backoff, n)
  }

  function Durations(transport: nat -> Reply, n: nat): real {
    if n == 0 then 0.0 else Durations(transport, n - 1) + transport(n).duration
  }

  /** The attempts are 1 .. k, each but the last a retryable failure, and the last one final or the last
      allowed. */
  predicate GoodAttempts(policy: Policy, attempts: seq<Attempt>) {
    && 1 <= |attempts| <= policy.maxAttempts
    && (forall i :: 0 <= i < |attempts| ==> attempts[i].number == i + 1 && attempts[i].startedAt <= attempts[i].endedAt)
    && (forall i, j :: 0 <= i < j < |attempts| ==> attempts[i].endedAt <= attempts[j].startedAt)
    && (forall i :: 0 <= i < |attempts| - 1 ==> attempts[i].outcome.SemanticFailure? && attempts[i].outcome.kind in policy.retryable)
    && var last := attempts[|attempts| - 1].outcome;
       last.Generation? || last.kind !in policy.retryable || |attempts| == policy.maxAttempts
  }

  /** The attempts so far, all of them retryable failures that ended by now. */
  ghost predicate Retrying(policy: Policy, attempts: seq<Attempt>, now: real) {
    && (forall i :: 0 <= i < |attempts| ==> attempts[i].number == i + 1 && attempts[i].startedAt <= attempts[i].endedAt <= now)
    && (forall i, j :: 0 <= i < j < |attempts| ==> attempts[i].endedAt <= attempts[j].startedAt)
    && (forall i :: 0 <= i < |attempts| ==> attempts[i].outcome.SemanticFailure? && attempts[i].outcome.kind in policy.retryable)
  }

  lemma {:induction false} ResultsAreGood(policy: Policy, transport: nat -> Reply, now: real, number: nat, attempts: seq<Attempt>)
    requires policy.Valid() && 1 <= number <= policy.maxAttempts && |attempts| == number - 1
    requires Retrying(policy, attempts, now) && forall n :: transport(n).duration >= 0.0
    ensures var result := Results(policy, transport, now, number, attempts);
            result.CallResult? ==> GoodAttempts(policy, result.attempts) && |result.attempts| == Calls(policy, transport, number)
    ensures Results(policy, transport, now, number, attempts).Mismatch? <==>
              !transport(Calls(policy, transport, number)).matches
    decreases policy.maxAttempts - number
  {
    var reply, start := transport(number), now + DelayFor(policy.backoff, number);
    DelaysGrow(policy.backoff, number);
    if reply.matches && !Final(policy, reply) {
      var more := attempts + [Attempt(number, start, start + reply.duration, reply.outcome)];
      if number < policy.maxAttempts {
        ResultsAreGood(policy, transport, start + reply.duration, number + 1, more);
      }
    }
  }

  /** Every run that is not cut short by mismatched evidence makes contiguous attempts 1 .. k, k at most the
      allowed number, and retries only eligible failures. */
  lemma RunsAreContiguous(policy: Policy, transport: nat -> Reply, now: real)
    requires policy.Valid() && forall n :: transport(n).duration >= 0.0
    ensures var result := Results(policy, transport, now, 1, []);
            && (result.Mismatch? <==> !transport(Calls(policy, transport, 1)).matches)
            && (result.CallResult? ==> GoodAttempts(policy, result.attempts))
  {
    ResultsAreGood(policy, transport, now, 1, []);
  }

  /** The attempt starts its delay after the one before it ended, lasts as long as its call, and records what the
      transport answered. */
  predicate TimedAt(policy: Policy, transport: nat -> Reply, from: real, attempts: seq<Attempt>, i: nat)
    requires i < |attempts|
  {
    && attempts[i].startedAt == (if i == 0 then from else attempts[i - 1].endedAt) + DelayFor(policy.backoff, i + 1)
    && attempts[i].endedAt == attempts[i].startedAt + transport(i + 1).duration
    && attempts[i].outcome == transport(i + 1).outcome
  }

  predicate Timed(policy: Policy, transport: nat -> Reply, from: real, attempts: seq<Attempt>) {
    forall i :: 0 <= i < |attempts| ==> TimedAt(policy, transport, from, attempts, i)
  }

  lemma OneMoreAttempt(policy: Policy, transport: nat -> Reply, from: real, now: real, attempts: seq<Attempt>)
    requires Timed(policy, transport, from, attempts)
    requires now == if attempts == [] then from else attempts[|attempts| - 1].endedAt
    ensures var number := |attempts| + 1;
            var reply, start := transport(number), now + DelayFor(policy.backoff, number);
            Timed(policy, transport, from, attempts + [Attempt(number, start, start + reply.duration, reply.outcome)])
  {
    var number := |attempts| + 1;
    var reply, start := transport(number), now + DelayFor(policy.backoff, number);
    var more := attempts + [Attempt(number, start, start + reply.duration, reply.outcome)];
    forall i | 0 <= i < |more|
      ensures TimedAt(policy, transport, from, more, i)
    {
      if i < |attempts| {
        assert TimedAt(policy, transport, from, attempts, i);
      }
    }
  }

  lemma {:induction false} ResultsAreTimed(
    policy: Policy, transport: nat -> Reply, from: real, now: real, number: nat, attempts: seq<Attempt>)
    requires 1 <= number <= policy.maxAttempts && |attempts| == number - 1 && Timed(policy, transport, from, attempts)
    requires now == if attempts == [] then from else attempts[|attempts| - 1].endedAt
    ensures var result := Results(policy, transport, now, number, attempts);
            result.CallResult? ==> Timed(policy, transport, from, result.attempts)
    decreases policy.maxAttempts - number
  {
    var reply, start := transport(number), now + DelayFor(policy.backoff, number);
    var more := attempts + [Attempt(number, start, start + reply.duration, reply.outcome)];
    if reply.matches {
      OneMoreAttempt(policy, transport, from, now, attempts);
      if !Final(policy, reply) && number < policy.maxAttempts {
        ResultsAreTimed(policy, transport, from, start + reply.duration, number + 1, more);
      }
    }
  }

  /** What a run records is what the transport answered, when it answered. */
  lemma AttemptsAreReplies(policy: Policy, transport: nat -> Reply, now: real)
    requires policy.Valid()
    ensures var result := Results(policy, transport, now, 1, []);
            result.CallResult? ==> Timed(policy, transport, now, result.attempts)
  {
    ResultsAreTimed(policy, transport, now, now, 1, []);
  }

  // ---------------------------------------------------------------- the guard deadline

  const GUARD_MARGIN := 15.0

  /** `guard_deadline_seconds`. */
  function GuardDeadline(policy: Policy, wireCalls: nat): real {
    wireCalls as real * (policy.maxAttempts as real * policy.timeout + Delays(policy, policy.maxAttempts)) + GUARD_MARGIN
  }

  lemma {:induction false} CallsBounded(policy: Policy, transport: nat -> Reply, number: nat)
    requires 1 <= number <= policy.maxAttempts
    ensures number <= Calls(policy, transport, number) <= policy.maxAttempts
    decreases policy.maxAttempts - number
  {
    if !Final(policy, transport(number)) && number < policy.maxAttempts {
      CallsBounded(policy, transport, number + 1);
    }
  }

  lemma {:induction false} DelaysMonotone(policy: Policy, n: nat, m: nat)
    requires policy.Valid() && n <= m
    ensures Delays(policy, n) <= Delays(policy, m)
  {
    if n < m {
      DelaysMonotone(policy, n, m - 1);
      DelaysGrow(policy.backoff, m);
    }
  }

  lemma {:induction false} DurationsBounded(policy: Policy, transport: nat -> Reply, n: nat)
    requires forall k :: transport(k).duration <= policy.timeout
    ensures Durations(transport, n) <= n as real * policy.timeout
  {
    if n > 0 {
      DurationsBounded(policy, transport, n - 1);
      assert n as real * policy.timeout == (n - 1) as real * policy.timeout + policy.timeout;
    }
  }

  /** If no transport call outlasts its timeout, a run's sleeping and calling time stays within the deadline of
      one wire call, less its margin. */
  lemma RunMeetsDeadline(policy: Policy, transport: nat -> Reply)
    requires policy.Valid() && forall n :: transport(n).duration <= policy.timeout
    ensures var k := Calls(policy, transport, 1);
            Delays(policy, k) + Durations(transport, k) <= GuardDeadline(policy, 1) - GUARD_MARGIN
  {
    var k := Calls(policy, transport, 1);
    OneWireCall(policy);
    CallsBounded(policy, transport, 1);
    DelaysMonotone(policy, k, policy.maxAttempts);
    DurationsBounded(policy, transport, k);
    WithinBudget(Delays(policy, k), Delays(policy, policy.maxAttempts), Durations(transport, k), k, policy.maxAttempts, policy.timeout);
  }

  lemma OneWireCall(policy: Policy)
    ensures GuardDeadline(policy, 1) - GUARD_MARGIN == policy.maxAttempts as real * policy.timeout + Delays(policy, policy.maxAttempts)
  {
  }

  lemma WithinBudget(slept: real, allSleep: real, called: real, k: nat, n: nat, timeout: real)
    requires slept <= allSleep && called <= k as real * timeout && k <= n && timeout >= 0.0
    ensures slept + called <= n as real * timeout + allSleep
  {
    var more := (n - k) as real;
    assert more * timeout >= 0.0;
    assert n as real * timeout == k as real * timeout + more * timeout;
  }

  /** The sleeping and calling time of several wire calls of one policy. */
  function TimeOf(policy: Policy, transports: seq<nat -> Reply>): real
    requires policy.maxAttempts >= 1
  {
    if transports == [] then 0.0
    else
      var k := Calls(policy, transports[0], 1);
      Delays(policy, k) + Durations(transports[0], k) + TimeOf(policy, transports[1..])
  }

  lemma OneMoreWireCall(policy: Policy, n: nat)
    ensures GuardDeadline(policy, n + 1) - GUARD_MARGIN == GuardDeadline(policy, n) + GuardDeadline(policy, 1) - 2.0 * GUARD_MARGIN
  {
    OneMoreTime(n, policy.maxAttempts as real * policy.timeout + Delays(policy, policy.maxAttempts));
  }

  lemma OneMoreTime(n: nat, each: real)
    ensures (n + 1) as real * each == n as real * each + each && 1 as real * each == each
  {
  }

  /** The deadline of several wire calls covers all of them, less one margin. */
  lemma {:induction false} RunsMeetDeadline(policy: Policy, transports: seq<nat -> Reply>)
    requires policy.Valid() && forall i, n :: 0 <= i < |transports| ==> transports[i](n).duration <= policy.timeout
    ensures TimeOf(policy, transports) <= GuardDeadline(policy, |transports|) - GUARD_MARGIN
  {
    if transports == [] {
      NoWireCalls(policy);
      assert |transports| == 0 && TimeOf(policy, transports) == 0.0;
    } else {
      var rest := transports[1..];
      RunMeetsDeadline(policy, transports[0]);
      RunsMeetDeadline(policy, rest);
      OneMoreWireCall(policy, |rest|);
      AddUp(TimeOf(policy, transports), TimeOf(policy, rest), GuardDeadline(policy, |transports|),
            GuardDeadline(policy, |rest|), GuardDeadline(policy, 1));
    }
  }

  /** Every call of the transport fails in a retryable way just at its timeout. */
  ghost predicate SlowFailures(policy: Policy, transport: nat -> Reply) {
    forall n :: transport(n).duration == policy.timeout && !Final(policy, transport(n))
  }

  lemma {:induction false} AlwaysRetried(policy: Policy, transport: nat -> Reply, number: nat)
    requires SlowFailures(policy, transport) && 1 <= number <= policy.maxAttempts
    ensures Calls(policy, transport, number) == policy.maxAttempts
    decreases policy.maxAttempts - number
  {
    if number < policy.maxAttempts {
      AlwaysRetried(policy, transport, number + 1);
    }
  }

  lemma {:induction false} SlowDurations(policy: Policy, transport: nat -> Reply, n: nat)
    requires SlowFailures(policy, transport)
    ensures Durations(transport, n) == n as real * policy.timeout
  {
    if n > 0 {
      SlowDurations(policy, transport, n - 1);
      OneMoreTime(n - 1, policy.timeout);
    }
  }

  /** The deadline is no longer than it must be: calls that all fail at their timeout take all of it but the margin. */
  lemma {:induction false} DeadlineIsTight(policy: Policy, transports: seq<nat -> Reply>)
    requires policy.Valid() && forall i :: 0 <= i < |transports| ==> SlowFailures(policy, transports[i])
    ensures TimeOf(policy, transports) == GuardDeadline(policy, |transports|) - GUARD_MARGIN
  {
    if transports == [] {
      NoWireCalls(policy);
    } else {
      AlwaysRetried(policy, transports[0], 1);
      SlowDurations(policy, transports[0], policy.maxAttempts);
      DeadlineIsTight(policy, transports[1..]);
      OneWireCall(policy);
      OneMoreWireCall(policy, |transports[1..]|);
    }
  }

  lemma NoWireCalls(policy: Policy)
    ensures GuardDeadline(policy, 0) == GUARD_MARGIN
  {
    ZeroTimes(policy.maxAttempts as real * policy.timeout + Delays(policy, policy.maxAttempts));
  }

  lemma ZeroTimes(x: real)
    ensures 0 as real * x == 0.0
  {
  }

  lemma AddUp(time: real, restTime: real, deadline: real, restDeadline: real, one: real)
    requires time <= one - GUARD_MARGIN + restTime && restTime <= restDeadline - GUARD_MARGIN
    requires deadline - GUARD_MARGIN == restDeadline + one - 2.0 * GUARD_MARGIN
    ensures time <= deadline - GUARD_MARGIN
  {
  }
}
