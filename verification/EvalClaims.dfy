/** The resolver's own code, method by method and loop by loop, run against a store that other
    resolvers may change before each of its operations.

    `Interfere` stands for whatever the others do: it may extend the log with well-formed events,
    set the key once and let time pass.  Every method here promises the same of its own writes,
    so resolvers that run side by side meet each other's assumption. */
module EvalClaimsService {
  import opened ClaimLog

  /** How a method ends: with a value, with a lost lease, killed, or with an integrity error. */
  datatype Ending<+T> = Done(value: T) | LeaseLost | Killed | Broken

  /** `own` are the events that the resolver holding this store has appended itself, and `mine` is what it has
      bound at the key itself. */
  class SharedStore {
    var state: Store
    var clock: real
    ghost var own: seq<Claim>
    ghost var mine: Option<Resolution>

    constructor ()
      ensures state == Store([], None) && clock == 0.0 && own == [] && mine == None && Valid()
    {
      state := Store([], None);
      clock := 0.0;
      own, mine := [], None;
    }

    ghost predicate Valid()
      reads this
    {
      StoreOk(state, clock)
    }

    /** Other resolvers run, and time passes. */
    method Interfere()
      requires Valid()
      modifies this
      ensures Valid() && Grows(old(state), state) && old(clock) <= clock && own == old(own) && mine == old(mine)
    {
    }

    method ResolveKey() returns (bound: Option<Resolution>)
      ensures bound == state.bound
    {
      bound := state.bound;
    }

    method ResolveEvent(ordinal: nat) returns (event: Option<Claim>)
      ensures event == if ordinal < |state.log| then Some(state.log[ordinal]) else None
    {
      event := if ordinal < |state.log| then Some(state.log[ordinal]) else None;
    }

    /** Write-once binding of an event ordinal: the first writer wins. */
    method BindEvent(event: Claim) returns (won: bool)
      requires event.ordinal <= |state.log|
      modifies this`state, this`own
      ensures state.bound == old(state.bound)
      ensures own == if event.ordinal == |old(state.log)| then old(own) + [event] else old(own)
      ensures state.log == if event.ordinal == |old(state.log)| then old(state.log) + [event] else old(state.log)
      ensures won <==> event.ordinal < |state.log| && state.log[event.ordinal] == event
    {
      if event.ordinal == |state.log| {
        state := state.(log := state.log + [event]);
        own := own + [event];
      }
      won := state.log[event.ordinal] == event;
    }

    /** Write-once binding of the intent's key. */
    method BindKey(r: Resolution) returns (won: bool)
      modifies this`state, this`mine
      ensures mine == if old(state.bound).None? then Some(r) else old(mine)
      ensures state.log == old(state.log)
      ensures state.bound == if old(state.bound).None? then Some(r) else old(state.bound)
      ensures won <==> state.bound == Some(r)
    {
      if state.bound.None? {
        state := state.(bound := Some(r));
        mine := Some(r);
      }
      won := state.bound == Some(r);
    }
  }

  /** The last event of a log: what `_latest_claim` is meant to return. */
  function Latest(log: seq<Claim>): Option<Claim> {
    if |log| == 0 then None else Some(log[|log| - 1])
  }

  predicate Holds(latest: Option<Claim>, owner: Owner, generation: nat) {
    latest.Some? && latest.value.owner == owner && latest.value.generation == generation
  }

  /** Appending the described event is right whenever the log still ends with `prior`. */
  ghost predicate Proposed(log: seq<Claim>, owner: Owner, prior: Option<Claim>, generation: nat, heartbeat: nat,
                           attested: Option<Resolution>)
  {
    && (attested.Some? ==> attested.value.Executed())
    && if prior.None? then generation == 0 && heartbeat == 0 && attested.None?
       else
         && prior.value.ordinal < |log| && log[prior.value.ordinal] == prior.value
         && prior.value.attested.None?
         && if prior.value.owner == owner then
              generation == prior.value.generation && heartbeat == prior.value.heartbeat + 1
            else generation == prior.value.generation + 1 && heartbeat == 0 && attested.None?
  }

  lemma AttestationIsLatest(store: Store, clock: real)
    requires StoreOk(store, clock)
    ensures HasAttestation(store.log) ==> Latest(store.log).Some? && Latest(store.log).value.attested.Some?
    ensures forall r :: AttestedBy(store.log, r) ==> Latest(store.log).Some? && Latest(store.log).value.attested == Some(r)
    ensures Latest(store.log).Some? && Latest(store.log).value.attested.Some? ==>
              && AttestedBy(store.log, Latest(store.log).value.attested.value)
              && Latest(store.log).value.attested.value.Executed()
  {
    forall k | 0 <= k < |store.log| && store.log[k].attested.Some?
      ensures k == |store.log| - 1
    {
      AttestationEndsLog(store.log, clock, k);
    }
    if |store.log| > 0 {
      assert Stamped(store.log[|store.log| - 1], clock);
    }
  }

  lemma AttestationsStay(before: Store, after: Store)
    requires Grows(before, after)
    ensures forall r :: AttestedBy(before.log, r) ==> AttestedBy(after.log, r)
    ensures HasAttestation(before.log) ==> HasAttestation(after.log)
  {
    assert forall k :: 0 <= k < |before.log| ==> after.log[k] == before.log[k];
  }

  /** The generation was held at some event no older than the log was, and that event is new or attests. */
  ghost predicate Extended(before: seq<Claim>, log: seq<Claim>, owner: Owner, generation: nat) {
    exists k :: 0 <= k < |log| && |before| <= k + 1 && log[k].owner == owner && log[k].generation == generation
                && (|before| <= k || log[k].attested.Some?)
  }

  /** At some time since the log was `before`, its last event was one of this generation. */
  ghost predicate HeldDuring(before: seq<Claim>, log: seq<Claim>, owner: Owner, generation: nat) {
    exists k :: 0 <= k < |log| && |before| <= k + 1 && log[k].owner == owner && log[k].generation == generation
  }

  /** At some time since then, it was not. */
  ghost predicate LostDuring(before: seq<Claim>, log: seq<Claim>, owner: Owner, generation: nat) {
    before == [] || exists k :: 0 <= k < |log| && |before| <= k + 1 && !(log[k].owner == owner && log[k].generation == generation)
  }

  /** At some time since then, another owner held an unfinished claim. */
  ghost predicate ForeignDuring(before: seq<Claim>, log: seq<Claim>, owner: Owner) {
    exists k :: 0 <= k < |log| && |before| <= k + 1 && log[k].owner != owner && log[k].attested.None?
  }

  ghost predicate AttestedUnder(log: seq<Claim>, r: Resolution, owner: Owner, generation: nat) {
    exists k :: 0 <= k < |log| && log[k].attested == Some(r) && log[k].owner == owner && log[k].generation == generation
  }

  ghost predicate OfAttested(log: seq<Claim>, r: Option<Resolution>) {
    r.Some? && AttestedBy(log, r.value)
  }

  ghost predicate AttestedOther(log: seq<Claim>, r: Resolution) {
    exists k :: 0 <= k < |log| && log[k].attested.Some? && log[k].attested != Some(r)
  }

  /** Events appended between two clock readings hold their lease for a full lease from their own reading. */
  ghost predicate Leased(before: seq<Claim>, own: seq<Claim>, owner: Owner, from: real, to: real) {
    && before <= own
    && forall k :: |before| <= k < |own| ==>
         own[k].owner == owner && from + owner.lease <= own[k].expiresAt <= to + owner.lease
  }

  lemma DuringNow(before: seq<Claim>, log: seq<Claim>, owner: Owner, generation: nat)
    requires before <= log
    ensures Holds(Latest(log), owner, generation) ==> HeldDuring(before, log, owner, generation)
    ensures !Holds(Latest(log), owner, generation) ==> LostDuring(before, log, owner, generation)
  {
    if log != [] {
      assert log[|log| - 1] == Latest(log).value;
    }
  }

  /** What was so between two times was so in any wider span. */
  lemma DuringWidens(before: seq<Claim>, from: seq<Claim>, to: seq<Claim>, log: seq<Claim>, owner: Owner, generation: nat)
    requires before <= from && to <= log
    ensures HeldDuring(from, to, owner, generation) ==> HeldDuring(before, log, owner, generation)
    ensures LostDuring(from, to, owner, generation) ==> LostDuring(before, log, owner, generation)
    ensures Extended(from, to, owner, generation) ==> HeldDuring(before, log, owner, generation)
    ensures ForeignDuring(from, to, owner) ==> ForeignDuring(before, log, owner)
  {
    if HeldDuring(from, to, owner, generation) {
      var k :| 0 <= k < |to| && |from| <= k + 1 && to[k].owner == owner && to[k].generation == generation;
      assert log[k] == to[k];
    }
    if LostDuring(from, to, owner, generation) && from != [] {
      var k :| 0 <= k < |to| && |from| <= k + 1 && !(to[k].owner == owner && to[k].generation == generation);
      assert log[k] == to[k];
    }
    if Extended(from, to, owner, generation) {
      var k :| 0 <= k < |to| && |from| <= k + 1 && to[k].owner == owner && to[k].generation == generation
               && (|from| <= k || to[k].attested.Some?);
      assert log[k] == to[k];
    }
    if ForeignDuring(from, to, owner) {
      var k :| 0 <= k < |to| && |from| <= k + 1 && to[k].owner != owner && to[k].attested.None?;
      assert log[k] == to[k];
    }
  }

  /** A new event stays new. */
  lemma ExtensionStays(before: seq<Claim>, to: seq<Claim>, log: seq<Claim>, owner: Owner, generation: nat)
    requires to <= log && Extended(before, to, owner, generation)
    ensures Extended(before, log, owner, generation)
  {
    var k :| 0 <= k < |to| && |before| <= k + 1 && to[k].owner == owner && to[k].generation == generation
             && (|before| <= k || to[k].attested.Some?);
    assert log[k] == to[k];
  }

  lemma AttestationStaysUnder(to: seq<Claim>, log: seq<Claim>, r: Resolution, owner: Owner, generation: nat)
    requires to <= log
    ensures AttestedUnder(to, r, owner, generation) ==> AttestedUnder(log, r, owner, generation)
    ensures AttestedOther(to, r) ==> AttestedOther(log, r)
  {
    assert forall k :: 0 <= k < |to| ==> log[k] == to[k];
  }

  class EvalClaims {
    const store: SharedStore
    const owner: Owner

    constructor (store: SharedStore, owner: Owner)
      requires owner.Valid()
      ensures this.store == store && this.owner == owner
    {
      this.store := store;
      this.owner := owner;
    }

    /** `_latest_claim`: read the events one by one and check each against the one before. */
    method LatestClaim(patience: nat) returns (result: Ending<Option<Claim>>)
      requires store.Valid()
      modifies store
      ensures store.Valid() && Grows(old(store.state), store.state) && old(store.clock) <= store.clock
      ensures store.mine == old(store.mine)
      ensures store.own == old(store.own)
      ensures result.Done? || result.Killed?
      ensures result.Done? ==> result.value == Latest(store.state.log)
      ensures result.Killed? ==> patience <= |store.state.log|
    {
      var latest: Option<Claim> := None;
      var eventOrdinal := 0;
      while eventOrdinal < patience
        invariant store.Valid() && Grows(old(store.state), store.state) && old(store.clock) <= store.clock
        invariant store.mine == old(store.mine)
        invariant eventOrdinal <= |store.state.log| && eventOrdinal <= patience && store.own == old(store.own)
        invariant latest == Latest(store.state.log[..eventOrdinal])
      {
        store.Interfere();
        var bound := store.ResolveEvent(eventOrdinal);
        if bound.None? {
          assert store.state.log[..eventOrdinal] == store.state.log;
          return Done(latest);
        }
        ScanNeverFails(store.state.log, store.clock, eventOrdinal);
        if ScanCheck(latest, bound.value, eventOrdinal).Some? {
          return Broken;
        }
        latest := bound;
        eventOrdinal := eventOrdinal + 1;
      }
      return Killed;
    }

    /** `_append_claim_event`: stamp one event, try to bind it and return whatever is bound there. */
    method AppendClaimEvent(prior: Option<Claim>, generation: nat, heartbeat: nat, attested: Option<Resolution>)
      returns (result: Ending<Claim>)
      requires owner.Valid() && store.Valid()
      requires Proposed(store.state.log, owner, prior, generation, heartbeat, attested)
      modifies store
      ensures store.Valid() && Grows(old(store.state), store.state) && old(store.clock) <= store.clock
      ensures store.mine == old(store.mine)
      ensures result.Done? || result.LeaseLost?
      ensures result.Done? ==> result.value in store.state.log
      ensures result.Done? ==> result.value.ordinal == (if prior.None? then 0 else prior.value.ordinal + 1)
      // The lease is only lost to a claim of another owner that has not expired.
      ensures result.LeaseLost? ==> prior.Some? && prior.value.owner != owner && old(store.clock) < prior.value.expiresAt
      // An event this call appends is the one it returns, says what was asked, and holds the lease for one full
      // lease from a clock reading of this call.
      ensures Leased(old(store.own), store.own, owner, old(store.clock), store.clock)
      ensures store.own != old(store.own) ==>
                && result.Done? && store.own == old(store.own) + [result.value]
                && result.value.generation == generation && result.value.heartbeat == heartbeat && result.value.attested == attested
    {
      store.Interfere();
      var eventOrdinal: nat := 0;
      match CheckAppend(prior, owner, generation, heartbeat, store.clock) {
        case Lost => return LeaseLost;
        case Misuse => return Broken;
        case Admit(k) => eventOrdinal := k;
      }
      store.Interfere();
      var event := Claim(owner, eventOrdinal, generation, heartbeat, store.clock + owner.lease, attested);
      if prior.Some? {
        assert store.state.log[prior.value.ordinal] == prior.value;
        assert Stamped(prior.value, store.clock);
      }
      store.Interfere();
      ghost var before := store.state;
      assert eventOrdinal > 0 ==> before.log[eventOrdinal - 1] == prior.value && Follows(prior.value, event);
      if eventOrdinal == |before.log| {
        AppendKeepsLog(before.log, store.clock, event);
      }
      var _ := store.BindEvent(event);
      AttestationsStay(before, store.state);
      store.Interfere();
      var bound := store.ResolveEvent(eventOrdinal);
      if bound.None? || bound.value.ordinal != eventOrdinal {
        return Broken;
      }
      return Done(bound.value);
    }

    /** `_attested_resolution`. */
    method AttestedResolution(patience: nat) returns (result: Ending<Option<Resolution>>)
      requires store.Valid()
      modifies store
      ensures store.Valid() && Grows(old(store.state), store.state) && old(store.clock) <= store.clock
      ensures store.mine == old(store.mine)
      ensures store.own == old(store.own)
      ensures result.Done? || result.Killed?
      ensures result.Killed? ==> patience <= |store.state.log|
      ensures result.Done? && result.value.Some? ==>
                AttestedBy(store.state.log, result.value.value) && result.value.value.Executed()
      ensures result.Done? && result.value.None? ==> !HasAttestation(store.state.log)
      ensures result.Done? ==> forall r :: AttestedBy(store.state.log, r) ==> result.value == Some(r)
    {
      var latest := LatestClaim(patience);
      if latest.Killed? {
        return Killed;
      }
      AttestationIsLatest(store.state, store.clock);
      if latest.value.None? {
        return Done(None);
      }
      return Done(latest.value.value.attested);
    }

    /** `_renew_claim`. */
    method RenewClaim(held: nat, patience: nat) returns (result: Ending<()>)
      requires owner.Valid() && store.Valid()
      modifies store
      ensures store.Valid() && Grows(old(store.state), store.state) && old(store.clock) <= store.clock
      ensures store.mine == old(store.mine)
      ensures !result.Broken?
      // A renewal leaves a new event of this owner's generation, unless that generation had attested.
      ensures result.Done? ==> Extended(old(store.state.log), store.state.log, owner, held)
      // One that wins its ordinal holds the lease for at least a full lease from the beginning of the call.
      ensures Leased(old(store.own), store.own, owner, old(store.clock), store.clock)
      ensures store.own == old(store.own)
              || (|store.own| == |old(store.own)| + 1
                  && store.own[|old(store.own)|].generation == held && store.own[|old(store.own)|].attested.None?)
      ensures result.LeaseLost? ==> LostDuring(old(store.state.log), store.state.log, owner, held)
      ensures result.Killed? ==> patience <= |store.state.log|
    {
      var latest := LatestClaim(patience);
      if latest.Killed? {
        return Killed;
      }
      DuringNow(old(store.state.log), store.state.log, owner, held);
      if !Holds(latest.value, owner, held) {
        return LeaseLost;
      }
      if latest.value.value.attested.Some? {
        return Done(());
      }
      var winner := AppendClaimEvent(latest.value, held, latest.value.value.heartbeat + 1, None);
      if winner.LeaseLost? || !Holds(Some(winner.value), owner, held) {
        assert store.state.log[winner.value.ordinal] == winner.value;
        return LeaseLost;
      }
      return Done(());
    }

    /** `_assert_generation_current`. */
    method AssertGenerationCurrent(held: nat, patience: nat) returns (result: Ending<()>)
      requires store.Valid()
      modifies store
      ensures store.Valid() && Grows(old(store.state), store.state) && old(store.clock) <= store.clock
      ensures store.mine == old(store.mine)
      ensures !result.Broken?
      ensures store.own == old(store.own)
      ensures result.Done? ==> Holds(Latest(store.state.log), owner, held)
      ensures result.LeaseLost? ==> !Holds(Latest(store.state.log), owner, held)
      ensures result.Done? ==> HeldDuring(old(store.state.log), store.state.log, owner, held)
      ensures result.LeaseLost? ==> LostDuring(old(store.state.log), store.state.log, owner, held)
      ensures result.Killed? ==> patience <= |store.state.log|
    {
      var latest := LatestClaim(patience);
      if latest.Killed? {
        return Killed;
      }
      DuringNow(old(store.state.log), store.state.log, owner, held);
      if !Holds(latest.value, owner, held) {
        return LeaseLost;
      }
      return Done(());
    }

    /** `_publish_result_attestation`: append the attestation, again if a heartbeat came first. */
    method PublishResultAttestation(r: Resolution, held: nat, patience: nat) returns (result: Ending<()>)
      requires owner.Valid() && store.Valid() && r.Executed()
      modifies store
      ensures store.Valid() && Grows(old(store.state), store.state) && old(store.clock) <= store.clock
      ensures store.mine == old(store.mine)
      ensures !result.Broken?
      ensures result.Done? ==> AttestedBy(store.state.log, r) && AttestedUnder(store.state.log, r, owner, held)
      ensures result.Done? ==> HeldDuring(old(store.state.log), store.state.log, owner, held)
      // It fails only on a lost generation, on another attested result, or on a log that outgrows its patience.
      ensures result.LeaseLost? ==>
                LostDuring(old(store.state.log), store.state.log, owner, held) || AttestedOther(store.state.log, r)
      ensures result.Killed? ==> patience <= |store.state.log|
      ensures Leased(old(store.own), store.own, owner, old(store.clock), store.clock)
      // It appends attestations of this result under this generation, and nothing else.
      ensures forall k :: |old(store.own)| <= k < |store.own| ==> store.own[k].generation == held && store.own[k].attested == Some(r)
    {
      var rounds := 0;
      while rounds < patience
        invariant store.Valid() && Grows(old(store.state), store.state) && old(store.clock) <= store.clock
        invariant store.mine == old(store.mine)
        invariant rounds <= patience && rounds <= |store.state.log|
        invariant forall k :: |old(store.own)| <= k < |store.own| ==> store.own[k].generation == held && store.own[k].attested == Some(r)
        invariant Leased(old(store.own), store.own, owner, old(store.clock), store.clock)
      {
        rounds := rounds + 1;
        var latest := LatestClaim(patience);
        if latest.Killed? {
          return Killed;
        }
        DuringNow(old(store.state.log), store.state.log, owner, held);
        if !Holds(latest.value, owner, held) {
          return LeaseLost;
        }
        AttestationIsLatest(store.state, store.clock);
        if latest.value.value.attested.Some? {
          assert store.state.log[|store.state.log| - 1] == latest.value.value;
          if latest.value.value.attested.value != r {
            return LeaseLost;
          }
          return Done(());
        }
        ghost var seen := store.state.log;
        var winner := AppendClaimEvent(latest.value, held, latest.value.value.heartbeat + 1, Some(r));
        assert store.state.log[winner.value.ordinal] == winner.value;
        if winner.LeaseLost? || !Holds(Some(winner.value), owner, held) {
          return LeaseLost;
        }
        if winner.value.attested == Some(r) {
          return Done(());
        }
        if winner.value.attested.Some? {
          return LeaseLost;
        }
      }
      return Killed;
    }

    /** The first part of a round of `_claim`: the last event, or the first claim when there is none. */
    method LatestOrFirst(patience: nat) returns (result: Ending<Claim>)
      requires owner.Valid() && store.Valid()
      modifies store
      ensures store.Valid() && Grows(old(store.state), store.state) && old(store.clock) <= store.clock
      ensures store.mine == old(store.mine)
      ensures result.Done? || result.Killed?
      ensures result.Done? ==>
                && result.value.ordinal < |store.state.log| && store.state.log[result.value.ordinal] == result.value
                && |old(store.state.log)| <= result.value.ordinal + 1
      ensures result.Killed? ==> patience <= |store.state.log|
      ensures Leased(old(store.own), store.own, owner, old(store.clock), store.clock)
    {
      var latest := LatestClaim(patience);
      if latest.Killed? {
        return Killed;
      }
      if latest.value.Some? {
        return Done(latest.value.value);
      }
      result := AppendClaimEvent(None, 0, 0, None);
    }

    /** `_claim`: become the owner, or learn that a result exists. */
    method ClaimIntent(patience: nat) returns (result: Ending<Option<nat>>)
      requires owner.Valid() && store.Valid()
      modifies store
      ensures store.Valid() && Grows(old(store.state), store.state) && old(store.clock) <= store.clock
      ensures store.mine == old(store.mine)
      ensures result.Done? || result.Killed?
      ensures result.Done? && result.value.None? ==> store.state.bound.Some? || HasAttestation(store.state.log)
      ensures result.Done? && result.value.Some? ==>
                HeldDuring(old(store.state.log), store.state.log, owner, result.value.value)
      // It gives up only on a log that outgrows its patience or while another owner's claim is unfinished.
      ensures result.Killed? ==>
                patience <= |store.state.log| || ForeignDuring(old(store.state.log), store.state.log, owner)
      ensures Leased(old(store.own), store.own, owner, old(store.clock), store.clock)
    {
      var rounds := 0;
      while rounds < patience
        invariant store.Valid() && Grows(old(store.state), store.state) && old(store.clock) <= store.clock
        invariant store.mine == old(store.mine)
        invariant rounds <= patience
        invariant rounds > 0 ==> ForeignDuring(old(store.state.log), store.state.log, owner)
        invariant Leased(old(store.own), store.own, owner, old(store.clock), store.clock)
      {
        rounds := rounds + 1;
        store.Interfere();
        var bound := store.ResolveKey();
        if bound.Some? {
          return Done(None);
        }
        var latest := LatestOrFirst(patience);
        if latest.Killed? {
          return Killed;
        }
        var winner := latest.value;
        if winner.attested.Some? {
          return Done(None);
        }
        if winner.owner == owner {
          return Done(Some(winner.generation));
        }
        store.Interfere();
        var remaining := winner.expiresAt - store.clock;
        if remaining <= 0.0 {
          assert store.state.log[winner.ordinal] == winner;
          var takeover := AppendClaimEvent(Some(winner), winner.generation + 1, 0, None);
          assert store.state.log[takeover.value.ordinal] == takeover.value;
          if takeover.value.owner == owner {
            return Done(Some(takeover.value.generation));
          }
        }
        assert store.state.log[winner.ordinal] == winner;
      }
      return Killed;
    }

    /** The attestation gate of `_validate_result_graph`. */
    method ValidateResultGraph(r: Resolution, patience: nat) returns (result: Ending<()>)
      requires store.Valid()
      requires r.Executed() ==> AttestedBy(store.state.log, r)
      modifies store
      ensures store.Valid() && Grows(old(store.state), store.state) && old(store.clock) <= store.clock
      ensures store.mine == old(store.mine)
      ensures result.Done? || result.Killed?
      ensures result.Killed? ==> patience <= |store.state.log|
    {
      if r.Executed() {
        ghost var before := store.state;
        var attested := AttestedResolution(patience);
        if attested.Killed? {
          return Killed;
        }
        AttestationsStay(before, store.state);
        if attested.value != Some(r) {
          return Broken;
        }
      }
      return Done(());
    }

    /** `_load` of the resolution bound at the key. */
    method Load(r: Resolution, patience: nat) returns (result: Ending<Resolution>)
      requires store.Valid() && store.state.bound == Some(r)
      modifies store
      ensures store.Valid() && Grows(old(store.state), store.state) && old(store.clock) <= store.clock
      ensures store.mine == old(store.mine)
      ensures result.Done? || result.Killed?
      ensures result.Done? ==> store.state.bound == Some(result.value)
      ensures result.Killed? ==> patience <= |store.state.log|
    {
      var ok := ValidateResultGraph(r, patience);
      if !ok.Done? {
        return Killed;
      }
      return Done(r);
    }

    /** `_bind`: on a conflict the winner is returned instead. */
    method Bind(r: Resolution, patience: nat) returns (result: Ending<Resolution>)
      requires store.Valid()
      requires r.Executed() ==> AttestedBy(store.state.log, r)
      modifies store
      ensures store.Valid() && Grows(old(store.state), store.state) && old(store.clock) <= store.clock
      ensures store.mine == old(store.mine) || (store.mine == Some(r) == store.state.bound)
      ensures result.Done? || result.Killed?
      ensures result.Done? ==> store.state.bound == Some(result.value)
      ensures result.Killed? ==> patience <= |store.state.log|
    {
      ghost var start := store.state;
      var ok := ValidateResultGraph(r, patience);
      if !ok.Done? {
        return Killed;
      }
      store.Interfere();
      AttestationsStay(start, store.state);
      ghost var before := store.state;
      var won := store.BindKey(r);
      AttestationsStay(before, store.state);
      if won {
        return Done(r);
      }
      store.Interfere();
      var winner := store.ResolveKey();
      if winner.None? {
        return Broken;
      }
      result := Load(winner.value, patience);
    }

    /** `_bind_if_owned`: an executed result is attested first; a rejection is only checked. */
    method BindIfOwned(r: Resolution, held: nat, patience: nat) returns (result: Ending<Resolution>)
      requires owner.Valid() && store.Valid()
      modifies store
      ensures store.Valid() && Grows(old(store.state), store.state) && old(store.clock) <= store.clock
      ensures store.mine == old(store.mine) || (store.mine == Some(r) == store.state.bound)
      ensures !result.Broken?
      ensures result.Done? ==> store.state.bound == Some(result.value)
      ensures result.Done? && r.Executed() ==>
                AttestedBy(store.state.log, r) && (result.value.Executed() ==> result.value == r)
      // Whatever is bound, this generation was held during the call, and an executed result was attested by it.
      ensures result.Done? ==> HeldDuring(old(store.state.log), store.state.log, owner, held)
      ensures result.Done? && r.Executed() ==> AttestedUnder(store.state.log, r, owner, held)
      ensures result.LeaseLost? ==>
                || LostDuring(old(store.state.log), store.state.log, owner, held)
                || (r.Executed() && AttestedOther(store.state.log, r))
      ensures result.Killed? ==> patience <= |store.state.log|
    {
      var ready: Ending<()>;
      if r.Executed() {
        ready := PublishResultAttestation(r, held, patience);
      } else {
        ready := AssertGenerationCurrent(held, patience);
      }
      if !ready.Done? {
        return if ready.LeaseLost? then LeaseLost else Killed;
      }
      ghost var attested := store.state;
      result := Bind(r, patience);
      AttestationsStay(attested, store.state);
      AttestationIsLatest(store.state, store.clock);
      DuringWidens(old(store.state.log), old(store.state.log), attested.log, store.state.log, owner, held);
      AttestationStaysUnder(attested.log, store.state.log, r, owner, held);
    }

    /** What both ways of resolving do before the heartbeat starts: renew the claim and check that it still stands. */
    method RenewAndCheck(held: nat, patience: nat) returns (result: Ending<()>)
      requires owner.Valid() && store.Valid()
      modifies store
      ensures store.Valid() && Grows(old(store.state), store.state) && old(store.clock) <= store.clock
      ensures store.mine == old(store.mine)
      ensures !result.Broken?
      ensures result.Done? ==> Extended(old(store.state.log), store.state.log, owner, held)
      ensures result.LeaseLost? ==> LostDuring(old(store.state.log), store.state.log, owner, held)
      ensures result.Killed? ==> patience <= |store.state.log|
    {
      result := RenewClaim(held, patience);
      if !result.Done? {
        return;
      }
      ghost var renewed := store.state.log;
      result := AssertGenerationCurrent(held, patience);
      DuringWidens(old(store.state.log), renewed, store.state.log, store.state.log, owner, held);
      ExtensionStays(old(store.state.log), renewed, store.state.log, owner, held);
    }

    /** After the join: a failed heartbeat is an error only while the key is unbound. */
    method CheckHeartbeat(r: Resolution) returns (result: Ending<Resolution>)
      requires store.Valid() && store.state.bound == Some(r)
      modifies store
      ensures store.Valid() && Grows(old(store.state), store.state) && old(store.clock) <= store.clock
      ensures store.mine == old(store.mine)
      ensures result == Done(r)
    {
      store.Interfere();
      var existing := store.ResolveKey();
      if existing.None? {
        return Broken;  // "evaluation lease heartbeat failed"
      }
      return Done(r);
    }

    /** `_evaluate_with_heartbeat` around `_evaluate_and_bind`; `produced` is what the engine returns
        and `heartbeatFailed` what the heartbeat thread reported, both arbitrary. */
    method EvaluateWithHeartbeat(held: nat, produced: Resolution, heartbeatFailed: bool, patience: nat)
      returns (result: Ending<Resolution>)
      requires owner.Valid() && store.Valid()
      modifies store
      ensures store.Valid() && Grows(old(store.state), store.state) && old(store.clock) <= store.clock
      ensures store.mine == old(store.mine) || (store.mine == Some(produced) == store.state.bound)
      ensures !result.Broken?
      ensures result.Done? ==> store.state.bound == Some(result.value)
      // The claim was renewed first, or had attested.
      ensures result.Done? ==> Extended(old(store.state.log), store.state.log, owner, held)
      ensures result.LeaseLost? ==>
                || LostDuring(old(store.state.log), store.state.log, owner, held)
                || (produced.Executed() && AttestedOther(store.state.log, produced))
      ensures result.Killed? ==> patience <= |store.state.log|
    {
      var ready := RenewAndCheck(held, patience);
      ghost var renewed := store.state.log;
      if !ready.Done? {
        return if ready.LeaseLost? then LeaseLost else Killed;
      }
      store.Interfere();
      var existing := store.ResolveKey();
      if existing.Some? {
        result := Load(existing.value, patience);
      } else {
        result := CheckAndBind(produced, held, patience, old(store.state.log));
      }
      if result.Done? && heartbeatFailed {
        result := CheckHeartbeat(result.value);
      }
      if result.Done? {
        ExtensionStays(old(store.state.log), renewed, store.state.log, owner, held);
      }
    }

    /** `_evaluate_and_bind` once the engine has answered: the generation is checked, then the result bound. */
    method CheckAndBind(produced: Resolution, held: nat, patience: nat, ghost since: seq<Claim>) returns (result: Ending<Resolution>)
      requires owner.Valid() && store.Valid() && since <= store.state.log
      modifies store
      ensures store.Valid() && Grows(old(store.state), store.state) && old(store.clock) <= store.clock
      ensures store.mine == old(store.mine) || (store.mine == Some(produced) == store.state.bound)
      ensures !result.Broken?
      ensures result.Done? ==> store.state.bound == Some(result.value)
      ensures result.Done? && produced.Executed() ==>
                AttestedBy(store.state.log, produced) && (result.value.Executed() ==> result.value == produced)
      ensures result.Done? ==> HeldDuring(since, store.state.log, owner, held)
      ensures result.LeaseLost? ==>
                || LostDuring(since, store.state.log, owner, held)
                || (produced.Executed() && AttestedOther(store.state.log, produced))
      ensures result.Killed? ==> patience <= |store.state.log|
    {
      var ready := AssertGenerationCurrent(held, patience);
      DuringWidens(since, old(store.state.log), store.state.log, store.state.log, owner, held);
      if !ready.Done? {
        return if ready.LeaseLost? then LeaseLost else Killed;
      }
      ghost var checked := store.state.log;
      result := BindIfOwned(produced, held, patience);
      DuringWidens(since, checked, store.state.log, store.state.log, owner, held);
    }

    /** What `_resolve_claimed` and its row variant do first: return what is already there, or own a claim. */
    method FindOrClaim(patience: nat) returns (found: bool, result: Ending<Resolution>, held: nat)
      requires owner.Valid() && store.Valid()
      modifies store
      ensures store.Valid() && Grows(old(store.state), store.state) && old(store.clock) <= store.clock
      ensures store.mine == old(store.mine) || (found && OfAttested(store.state.log, store.mine))
      ensures !result.Broken?
      ensures found && result.Done? ==> store.state.bound == Some(result.value)
      ensures !found ==> HeldDuring(old(store.state.log), store.state.log, owner, held)
      ensures !result.LeaseLost?
      ensures found && result.Killed? ==>
                patience <= |store.state.log| || ForeignDuring(old(store.state.log), store.state.log, owner)
    {
      found, held := true, 0;
      store.Interfere();
      var existing := store.ResolveKey();
      if existing.Some? {
        result := Load(existing.value, patience);
        return;
      }
      var attested := AttestedResolution(patience);
      if attested.Killed? {
        return true, Killed, 0;
      }
      if attested.value.Some? {
        result := Bind(attested.value.value, patience);
        return;
      }
      found, result, held := ClaimOrFind(patience, old(store.state.log));
    }

    /** The rest of that: claim the intent, then look once more. */
    method ClaimOrFind(patience: nat, ghost since: seq<Claim>) returns (found: bool, result: Ending<Resolution>, held: nat)
      requires owner.Valid() && store.Valid() && since <= store.state.log
      modifies store
      ensures store.Valid() && Grows(old(store.state), store.state) && old(store.clock) <= store.clock
      ensures store.mine == old(store.mine) || (found && OfAttested(store.state.log, store.mine))
      ensures !result.Broken?
      ensures found && result.Done? ==> store.state.bound == Some(result.value)
      ensures !found ==> HeldDuring(since, store.state.log, owner, held)
      ensures !result.LeaseLost?
      ensures found && result.Killed? ==>
                patience <= |store.state.log| || ForeignDuring(since, store.state.log, owner)
    {
      found, held := true, 0;
      var owned := ClaimIntent(patience);
      ghost var claimed := store.state;
      if owned.Killed? {
        DuringWidens(since, old(store.state.log), claimed.log, claimed.log, owner, 0);
        return true, Killed, 0;
      }
      store.Interfere();
      AttestationsStay(claimed, store.state);
      var existing := store.ResolveKey();
      if existing.Some? {
        result := Load(existing.value, patience);
        return;
      }
      ghost var before := store.state;
      var attested := AttestedResolution(patience);
      if attested.Killed? {
        return true, Killed, 0;
      }
      AttestationsStay(before, store.state);
      if attested.value.Some? {
        result := Bind(attested.value.value, patience);
        return;
      }
      if owned.value.None? {
        result := Broken;  // "evaluation claim resolved without a result"
        return;
      }
      DuringWidens(since, old(store.state.log), claimed.log, store.state.log, owner, owned.value.value);
      return false, Killed, owned.value.value;
    }

    /** `_resolve_claimed`: whatever it returns is bound at the key, and it never meets an integrity
        error, whatever the other resolvers do in between. */
    method ResolveClaimed(produced: Resolution, heartbeatFailed: bool, patience: nat)
      returns (result: Ending<Resolution>, ghost held: nat)
      requires owner.Valid() && store.Valid()
      modifies store
      ensures store.Valid() && Grows(old(store.state), store.state) && old(store.clock) <= store.clock
      // What this resolver binds is what it produced or what it found attested.
      ensures store.mine == old(store.mine) || store.mine == Some(produced) || OfAttested(store.state.log, store.mine)
      ensures !result.Broken?
      ensures result.Done? ==> store.state.bound == Some(result.value)
      ensures result.Done? && result.value.Executed() ==> AttestedBy(store.state.log, result.value)
      ensures result.Killed? ==>
                patience <= |store.state.log| || ForeignDuring(old(store.state.log), store.state.log, owner)
      // A lease is lost only after it was held: to another generation, or to another attested result.
      ensures result.LeaseLost? ==>
                && HeldDuring(old(store.state.log), store.state.log, owner, held)
                && (LostDuring(old(store.state.log), store.state.log, owner, held)
                    || (produced.Executed() && AttestedOther(store.state.log, produced)))
    {
      var found, generation;
      found, result, generation := FindOrClaim(patience);
      held := generation;
      if !found {
        ghost var claimed := store.state.log;
        result := EvaluateWithHeartbeat(generation, produced, heartbeatFailed, patience);
        DuringWidens(old(store.state.log), old(store.state.log), claimed, store.state.log, owner, held);
        DuringWidens(old(store.state.log), claimed, store.state.log, store.state.log, owner, held);
      }
    }

    // ---------------------------------------------------------------- platform rows

    /** `_assemble_and_bind_outcomes`: the first rejection decides, then the first failure, then the assembled
        rows.  `assembled` is what the engine makes of them, nothing when it raises. */
    method AssembleAndBindOutcomes(outcomes: seq<RowOutcome>, assembled: Option<Resolution>, held: nat, patience: nat)
      returns (result: Ending<Resolution>)
      requires owner.Valid() && store.Valid()
      modifies store
      ensures store.Valid() && Grows(old(store.state), store.state) && old(store.clock) <= store.clock
      ensures store.mine == old(store.mine) || (store.mine == Verdict(outcomes, assembled) == store.state.bound)
      ensures result.Broken? ==> Verdict(outcomes, assembled).None?
      ensures result.Done? ==>
                && store.state.bound == Some(result.value)
                && var verdict := Verdict(outcomes, assembled);
                   && verdict.Some?
                   && (verdict.value.Executed() ==>
                         && AttestedBy(store.state.log, verdict.value)
                         && (result.value.Executed() ==> result.value == verdict.value))
      ensures result.Done? ==> HeldDuring(old(store.state.log), store.state.log, owner, held)
      ensures result.LeaseLost? ==>
                || LostDuring(old(store.state.log), store.state.log, owner, held)
                || (Verdict(outcomes, assembled).Some? && AttestedOther(store.state.log, Verdict(outcomes, assembled).value))
      ensures result.Killed? ==> patience <= |store.state.log|
    {
      var ready := AssertGenerationCurrent(held, patience);
      if !ready.Done? {
        return if ready.LeaseLost? then LeaseLost else Killed;
      }
      var i := 0;
      while i < |outcomes|
        invariant i <= |outcomes| && FirstRejected(outcomes) == FirstRejected(outcomes[i..])
      {
        assert outcomes[i..][1..] == outcomes[i + 1..];
        if outcomes[i].rejected.Some? {
          ghost var checked := store.state.log;
          result := BindIfOwned(Resolution(Rejected, outcomes[i].rejected.value), held, patience);
          DuringWidens(old(store.state.log), checked, store.state.log, store.state.log, owner, held);
          return;
        }
        i := i + 1;
      }
      assert FirstRejected(outcomes) == None;
      i := 0;
      while i < |outcomes|
        invariant i <= |outcomes| && FirstFailed(outcomes) == FirstFailed(outcomes[i..])
      {
        assert outcomes[i..][1..] == outcomes[i + 1..];
        if outcomes[i].failure.Some? {
          if !outcomes[i].hasRef {
            return Broken;  // "failed row outcome is missing evidence_ref"
          }
          ghost var checked := store.state.log;
          result := BindIfOwned(Resolution(Failed, outcomes[i].failure.value), held, patience);
          DuringWidens(old(store.state.log), checked, store.state.log, store.state.log, owner, held);
          return;
        }
        i := i + 1;
      }
      assert FirstFailed(outcomes) == None;
      if (forall k :: 0 <= k < |outcomes| ==> !outcomes[k].evidence) || assembled.None? {
        return Broken;  // "row outcomes contain no success evidence", or the assembly raised
      }
      result := CheckAndBind(assembled.value, held, patience, old(store.state.log));
    }

    /** `_assemble_with_heartbeat_outcomes`. */
    method AssembleWithHeartbeat(outcomes: seq<RowOutcome>, assembled: Option<Resolution>, held: nat, heartbeatFailed: bool,
                                 patience: nat)
      returns (result: Ending<Resolution>)
      requires owner.Valid() && store.Valid()
      modifies store
      ensures store.Valid() && Grows(old(store.state), store.state) && old(store.clock) <= store.clock
      ensures store.mine == old(store.mine) || (store.mine == Verdict(outcomes, assembled) == store.state.bound)
      ensures result.Broken? ==> Verdict(outcomes, assembled).None?
      ensures result.Done? ==> store.state.bound == Some(result.value)
      // The claim was renewed first, or had attested.
      ensures result.Done? ==> Extended(old(store.state.log), store.state.log, owner, held)
      ensures result.LeaseLost? ==>
                || LostDuring(old(store.state.log), store.state.log, owner, held)
                || (Verdict(outcomes, assembled).Some? && AttestedOther(store.state.log, Verdict(outcomes, assembled).value))
      ensures result.Killed? ==> patience <= |store.state.log|
    {
      var ready := RenewAndCheck(held, patience);
      ghost var renewed := store.state.log;
      if !ready.Done? {
        return if ready.LeaseLost? then LeaseLost else Killed;
      }
      result := AssembleAndBindOutcomes(outcomes, assembled, held, patience);
      DuringWidens(old(store.state.log), renewed, store.state.log, store.state.log, owner, held);
      if result.Done? && heartbeatFailed {
        result := CheckHeartbeat(result.value);
      }
      if result.Done? {
        ExtensionStays(old(store.state.log), renewed, store.state.log, owner, held);
      }
    }

    /** `_resolve_claimed_with_row_outcomes`. */
    method ResolveClaimedWithRowOutcomes(outcomes: seq<RowOutcome>, assembled: Option<Resolution>, heartbeatFailed: bool,
                                         patience: nat)
      returns (result: Ending<Resolution>, ghost held: nat)
      requires owner.Valid() && store.Valid()
      modifies store
      ensures store.Valid() && Grows(old(store.state), store.state) && old(store.clock) <= store.clock
      // What this resolver binds is the verdict of the rows or what it found attested.
      ensures store.mine == old(store.mine) || store.mine == Verdict(outcomes, assembled) || OfAttested(store.state.log, store.mine)
      ensures result.Broken? ==> Verdict(outcomes, assembled).None?
      ensures result.Done? ==> store.state.bound == Some(result.value)
      ensures result.Done? && result.value.Executed() ==> AttestedBy(store.state.log, result.value)
      ensures result.Killed? ==>
                patience <= |store.state.log| || ForeignDuring(old(store.state.log), store.state.log, owner)
      // A lease is lost only after it was held: to another generation, or to another attested result.
      ensures result.LeaseLost? ==>
                && HeldDuring(old(store.state.log), store.state.log, owner, held)
                && (LostDuring(old(store.state.log), store.state.log, owner, held)
                    || (Verdict(outcomes, assembled).Some? && AttestedOther(store.state.log, Verdict(outcomes, assembled).value)))
    {
      var found, generation;
      found, result, generation := FindOrClaim(patience);
      held := generation;
      if !found {
        ghost var claimed := store.state.log;
        result := AssembleWithHeartbeat(outcomes, assembled, generation, heartbeatFailed, patience);
        DuringWidens(old(store.state.log), old(store.state.log), claimed, store.state.log, owner, held);
        DuringWidens(old(store.state.log), claimed, store.state.log, store.state.log, owner, held);
      }
    }
  }

  /** The outcome of one platform row: a rejection, a failure with or without its evidence, or evidence. */
  datatype RowOutcome = RowOutcome(rejected: Option<int>, failure: Option<int>, hasRef: bool, evidence: bool)

  function FirstRejected(outcomes: seq<RowOutcome>): Option<int> {
    if outcomes == [] then None
    else if outcomes[0].rejected.Some? then outcomes[0].rejected
    else FirstRejected(outcomes[1..])
  }

  function FirstFailed(outcomes: seq<RowOutcome>): Option<RowOutcome> {
    if outcomes == [] then None
    else if outcomes[0].failure.Some? then Some(outcomes[0])
    else FirstFailed(outcomes[1..])
  }

  /** The resolution that a set of finished rows stands for; nothing when resolving them raises. */
  function Verdict(outcomes: seq<RowOutcome>, assembled: Option<Resolution>): Option<Resolution> {
    if FirstRejected(outcomes).Some? then Some(Resolution(Rejected, FirstRejected(outcomes).value))
    else
      var failed := FirstFailed(outcomes);
      if failed.Some? then
        if failed.value.hasRef && failed.value.failure.Some? then Some(Resolution(Failed, failed.value.failure.value)) else None
      else if forall k :: 0 <= k < |outcomes| ==> !outcomes[k].evidence then None
      else assembled
  }

  lemma {:induction false} FirstsExist(outcomes: seq<RowOutcome>)
    ensures FirstRejected(outcomes).Some? <==> exists i :: 0 <= i < |outcomes| && outcomes[i].rejected.Some?
    ensures FirstFailed(outcomes).Some? <==> exists i :: 0 <= i < |outcomes| && outcomes[i].failure.Some?
    ensures FirstFailed(outcomes).Some? ==> FirstFailed(outcomes).value in outcomes && FirstFailed(outcomes).value.failure.Some?
  {
    if outcomes != [] {
      FirstsExist(outcomes[1..]);
      assert forall i :: 0 < i < |outcomes| ==> outcomes[i] == outcomes[1..][i - 1];
    }
  }

  /** What rows resolve to does not depend on their order: rejected exactly when some row was, otherwise failed
      exactly when some row failed, and otherwise what is assembled, provided failures carry their evidence. */
  lemma VerdictByKind(outcomes: seq<RowOutcome>, assembled: Option<Resolution>)
    requires forall i :: 0 <= i < |outcomes| && outcomes[i].failure.Some? ==> outcomes[i].hasRef
    ensures (exists i :: 0 <= i < |outcomes| && outcomes[i].rejected.Some?) ==>
              Verdict(outcomes, assembled).Some? && Verdict(outcomes, assembled).value.outcome == Rejected
    ensures forall i :: 0 <= i < |outcomes| && outcomes[i].rejected.Some?
                        && (forall j :: 0 <= j < i ==> outcomes[j].rejected.None?) ==>
              Verdict(outcomes, assembled) == Some(Resolution(Rejected, outcomes[i].rejected.value))
    ensures (forall i :: 0 <= i < |outcomes| ==> outcomes[i].rejected.None?) ==>
              forall i :: 0 <= i < |outcomes| && outcomes[i].failure.Some?
                          && (forall j :: 0 <= j < i ==> outcomes[j].failure.None?) ==>
                Verdict(outcomes, assembled) == Some(Resolution(Failed, outcomes[i].failure.value))
    ensures (forall i :: 0 <= i < |outcomes| ==> outcomes[i].rejected.None?)
            && (exists i :: 0 <= i < |outcomes| && outcomes[i].failure.Some?) ==>
              Verdict(outcomes, assembled).Some? && Verdict(outcomes, assembled).value.outcome == Failed
    ensures (forall i :: 0 <= i < |outcomes| ==> outcomes[i].rejected.None? && outcomes[i].failure.None?) ==>
              Verdict(outcomes, assembled) ==
              if exists i :: 0 <= i < |outcomes| && outcomes[i].evidence then assembled else None
  {
    FirstsExist(outcomes);
    forall i | 0 <= i < |outcomes|
      ensures (forall j :: 0 <= j < i ==> outcomes[j].rejected.None?) && outcomes[i].rejected.Some? ==>
                FirstRejected(outcomes) == outcomes[i].rejected
      ensures (forall j :: 0 <= j < i ==> outcomes[j].failure.None?) && outcomes[i].failure.Some? ==>
                FirstFailed(outcomes) == Some(outcomes[i])
    {
      FirstIs(outcomes, i);
    }
  }

  lemma {:induction false} FirstIs(outcomes: seq<RowOutcome>, i: nat)
    requires i < |outcomes|
    ensures (forall j :: 0 <= j < i ==> outcomes[j].rejected.None?) && outcomes[i].rejected.Some? ==>
              FirstRejected(outcomes) == outcomes[i].rejected
    ensures (forall j :: 0 <= j < i ==> outcomes[j].failure.None?) && outcomes[i].failure.Some? ==>
              FirstFailed(outcomes) == Some(outcomes[i])
  {
    if i > 0 {
      FirstIs(outcomes[1..], i - 1);
      assert forall j :: 0 <= j < i - 1 ==> outcomes[1..][j] == outcomes[j + 1];
      assert outcomes[1..][i - 1] == outcomes[i];
    }
  }
}
