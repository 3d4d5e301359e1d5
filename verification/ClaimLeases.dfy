/** How long the events of a claim log hold their lease, over every interleaving: each is stamped with one full
    lease from a clock reading that its own thread made after the event before it was bound. */
module ClaimLeases {
  import opened ClaimLog
  import opened ClaimMachine

  /** The event was stamped after the first `n` events of the run, when all events before it were bound. */
  ghost predicate StampedAt(events: seq<Event>, event: Claim, n: nat) {
    && n <= |events|
    && event.expiresAt == Run(events[..n]).clock + event.owner.lease
    && event.ordinal <= |Run(events[..n]).store.log|
  }

  ghost predicate StampedInRun(events: seq<Event>, event: Claim) {
    exists n: nat :: StampedAt(events, event, n)
  }

  /** The event was stamped when exactly `k` events were bound. */
  ghost predicate StampedBehind(events: seq<Event>, event: Claim, k: nat, n: nat) {
    StampedAt(events, event, n) && |Run(events[..n]).store.log| == k
  }

  ghost predicate StampedInPlace(events: seq<Event>, k: nat)
    requires k < |Run(events).store.log|
  {
    exists n: nat :: StampedBehind(events, Run(events).store.log[k], k, n)
  }

  ghost predicate PcStamped(events: seq<Event>, pc: Pc) {
    pc.BindingEvent? ==> StampedInRun(events, pc.event)
  }

  ghost predicate AllStamped(events: seq<Event>) {
    && (forall t :: PcStamped(events, PcOf(Run(events), t)))
    && (forall k :: 0 <= k < |Run(events).store.log| ==> StampedInPlace(events, k))
  }

  lemma StampStays(events: seq<Event>, e: Event, event: Claim, n: nat)
    requires n <= |events|
    ensures (events + [e])[..n] == events[..n]
    ensures StampedAt(events, event, n) ==> StampedAt(events + [e], event, n)
  {
    assert (events + [e])[..n] == events[..n];
  }

  lemma RunOne(events: seq<Event>, e: Event)
    ensures Run(events + [e]) == Apply(Run(events), e)
  {
    assert (events + [e])[..|events + [e]| - 1] == events;
  }

  /** A thread that is stamping makes its event from the clock it reads. */
  lemma StampingStamps(events: seq<Event>, e: Event, t: ThreadId, pc: Pc)
    requires Inv(Run(events)) && t.owner.Valid() && ThreadOk(Run(events).store, Run(events).clock, t.owner, pc)
    requires e.Act? && pc.Stamping?
    requires PcOf(Run(events + [e]), t) == MoveThread(Run(events).store, Run(events).clock, t, pc, e.choice).pc
    ensures PcStamped(events + [e], PcOf(Run(events + [e]), t))
  {
    var after := PcOf(Run(events + [e]), t);
    if after.BindingEvent? {
      assert (events + [e])[..|events|] == events;
      assert StampedAt(events + [e], after.event, |events|);
    }
  }

  lemma MoverStamped(events: seq<Event>, e: Event)
    requires AllStamped(events) && Inv(Run(events)) && e.Act? && e.thread.owner.Valid()
    ensures PcStamped(events + [e], PcOf(Run(events + [e]), e.thread))
  {
    var sys, t := Run(events), e.thread;
    var pc := PcOf(sys, t);
    RunOne(events, e);
    assert ThreadOk(sys.store, sys.clock, t.owner, pc);
    if pc.Stamping? {
      StampingStamps(events, e, t, pc);
    } else {
      OnlyStampingStamps(sys.store, sys.clock, t, pc, e.choice);
    }
  }

  /** No other step gets a thread to the binding of an event. */
  lemma OnlyStampingStamps(store: Store, clock: real, t: ThreadId, pc: Pc, choice: Choice)
    requires !pc.Stamping?
    ensures !MoveThread(store, clock, t, pc, choice).pc.BindingEvent?
  {
  }

  lemma ThreadsStayStamped(events: seq<Event>, e: Event)
    requires AllStamped(events) && Inv(Run(events))
    ensures forall t :: PcStamped(events + [e], PcOf(Run(events + [e]), t))
  {
    RunOne(events, e);
    forall t
      ensures PcStamped(events + [e], PcOf(Run(events + [e]), t))
    {
      if e.Act? && e.thread.owner.Valid() && t == e.thread {
        MoverStamped(events, e);
      } else {
        var pc := PcOf(Run(events), t);
        assert PcOf(Run(events + [e]), t) == pc && PcStamped(events, pc);
        if pc.BindingEvent? {
          var n: nat :| StampedAt(events, pc.event, n);
          StampStays(events, e, pc.event, n);
        }
      }
    }
  }

  lemma PrefixGrows(events: seq<Event>, n: nat)
    requires n <= |events|
    ensures Run(events[..n]).store.log <= Run(events).store.log
  {
    RunsOnlyGrow(events[..n], events[n..]);
    assert events[..n] + events[n..] == events;
  }

  lemma LogStaysStamped(events: seq<Event>, e: Event, k: nat)
    requires AllStamped(events) && Inv(Run(events)) && k < |Run(events + [e]).store.log|
    ensures StampedInPlace(events + [e], k)
  {
    RunOne(events, e);
    ApplyKeepsInv(Run(events), e);
    if k < |Run(events).store.log| {
      assert StampedInPlace(events, k);
      var n: nat :| StampedBehind(events, Run(events).store.log[k], k, n);
      StampStays(events, e, Run(events).store.log[k], n);
      assert StampedBehind(events + [e], Run(events + [e]).store.log[k], k, n);
    } else {
      NewEventStamped(events, e, k);
    }
  }

  lemma NewEventStamped(events: seq<Event>, e: Event, k: nat)
    requires AllStamped(events) && Run(events + [e]) == Apply(Run(events), e)
    requires |Run(events).store.log| <= k < |Run(events + [e]).store.log|
    ensures StampedInPlace(events + [e], k)
  {
    var pc := PcOf(Run(events), e.thread);
    AppendedIs(Run(events), e, k);
    assert PcStamped(events, pc);
    var n: nat :| StampedAt(events, pc.event, n);
    PrefixGrows(events, n);
    StampStays(events, e, pc.event, n);
    assert StampedBehind(events + [e], Run(events + [e]).store.log[k], k, n);
  }

  /** Only the binding of an event makes the log longer, by that event at its own ordinal. */
  lemma AppendedIs(sys: Sys, e: Event, k: nat)
    requires |sys.store.log| <= k < |Apply(sys, e).store.log|
    ensures e.Act? && PcOf(sys, e.thread).BindingEvent?
    ensures Apply(sys, e).store.log[k] == PcOf(sys, e.thread).event && PcOf(sys, e.thread).event.ordinal == k == |sys.store.log|
  {
  }

  lemma {:induction false} RunIsStamped(events: seq<Event>)
    ensures AllStamped(events)
  {
    if events != [] {
      var most, e := events[..|events| - 1], events[|events| - 1];
      RunIsStamped(most);
      RunKeepsInv(most);
      assert most + [e] == events;
      ThreadsStayStamped(most, e);
      forall k | 0 <= k < |Run(events).store.log|
        ensures StampedInPlace(events, k)
      {
        LogStaysStamped(most, e, k);
      }
    }
  }

  lemma {:induction false} ClockAdvances(events: seq<Event>, n: nat)
    requires n <= |events|
    ensures Run(events[..n]).clock <= Run(events).clock
  {
    if n == |events| {
      assert events[..n] == events;
    } else {
      ClockAdvances(events[..|events| - 1], n);
      assert events[..|events| - 1][..n] == events[..n];
    }
  }

  /** Every event of the log, renewals and attestations included, holds the lease for exactly one full lease from
      a clock reading made when the events before it were all bound and it was not. */
  lemma LeaseRunsFromReading(events: seq<Event>, k: nat) returns (n: nat)
    requires k < |Run(events).store.log|
    ensures n <= |events| && |Run(events[..n]).store.log| == k
    ensures Run(events).store.log[k].expiresAt == Run(events[..n]).clock + Run(events).store.log[k].owner.lease
  {
    RunIsStamped(events);
    assert StampedInPlace(events, k);
    n :| StampedBehind(events, Run(events).store.log[k], k, n);
  }

  /** So a heartbeat extends the lease: an event bound behind some state of the run that still lacked its
      predecessor holds the lease for at least one full lease from that state on. */
  lemma RenewalsExtend(events: seq<Event>, m: nat, k: nat)
    requires m <= |events| && |Run(events[..m]).store.log| < k < |Run(events).store.log|
    ensures Run(events).store.log[k].expiresAt >= Run(events[..m]).clock + Run(events).store.log[k].owner.lease
  {
    var n := LeaseRunsFromReading(events, k);
    if n < m {
      assert events[..m][..n] == events[..n];
      PrefixGrows(events[..m], n);
    } else {
      assert events[..n][..m] == events[..m];
      ClockAdvances(events[..n], m);
    }
  }
}
