/** The append-only claim log of one evaluation intent: its records, the checks that read it
    and the check that guards an append.  Refs are content hashes, so a reference is modelled
    by the record it names; the log is the contiguous run of bound event ordinals. */
module ClaimLog {

  datatype Option<+T> = None | Some(value: T)

  datatype Outcome = Completed | Failed | Rejected

  /** An Intent Resolution; `payload` stands for every field but the outcome. */
  datatype Resolution = Resolution(outcome: Outcome, payload: int) {
    predicate Executed() { outcome != Rejected }
  }

  /** One service instance: a fresh uuid and its configured lease duration. */
  datatype Owner = Owner(id: nat, lease: real) {
    predicate Valid() { lease > 0.0 }
  }

  datatype Claim = Claim(
    owner: Owner,
    ordinal: nat,
    generation: nat,
    heartbeat: nat,
    expiresAt: real,
    attested: Option<Resolution>)
  {
    /** The clock reading from which the expiry was computed. */
    function IssuedAt(): real { expiresAt - owner.lease }
  }

  datatype Store = Store(log: seq<Claim>, bound: Option<Resolution>)

  // ---------------------------------------------------------------- reading the log

  datatype ScanError = BadIdentity | BadOrigin | AfterTerminal | BadRenewal | BadTakeover

  /** The checks `_latest_claim` makes on the event bound at `ordinal`. */
  function ScanCheck(latest: Option<Claim>, claim: Claim, ordinal: nat): Option<ScanError> {
    if claim.ordinal != ordinal then Some(BadIdentity)
    else if latest.None? then
      if claim.generation != 0 || claim.heartbeat != 0 then Some(BadOrigin) else None
    else if latest.value.attested.Some? then Some(AfterTerminal)
    else if claim.owner == latest.value.owner then
      if claim.generation != latest.value.generation || claim.heartbeat != latest.value.heartbeat + 1
      then Some(BadRenewal) else None
    else if claim.generation != latest.value.generation + 1 || claim.heartbeat != 0
    then Some(BadTakeover)
    else None
  }

  // ---------------------------------------------------------------- appending to the log

  datatype AppendCheck = Admit(ordinal: nat) | Lost | Misuse

  /** The checks `_append_claim_event` makes before it stamps an event. */
  function CheckAppend(
    prior: Option<Claim>, owner: Owner, generation: nat, heartbeat: nat, clock: real): AppendCheck
  {
    if prior.None? then
      if generation != 0 || heartbeat != 0 then Misuse else Admit(0)
    else if generation == prior.value.generation then
      if prior.value.owner != owner || heartbeat != prior.value.heartbeat + 1 then Lost
      else if prior.value.attested.Some? then Lost
      else Admit(prior.value.ordinal + 1)
    else
      if generation != prior.value.generation + 1 || heartbeat != 0 then Misuse
      else if prior.value.expiresAt > clock then Lost
      else Admit(prior.value.ordinal + 1)
  }

  // ---------------------------------------------------------------- well-formed logs

  predicate Origin(first: Claim) {
    first.ordinal == 0 && first.generation == 0 && first.heartbeat == 0 && first.attested.None?
  }

  /** `next` may directly follow `prior`: a renewal (or attestation) by the same owner, or a
      takeover by another one that was stamped at or after the prior expiry. */
  predicate Follows(prior: Claim, next: Claim) {
    && next.ordinal == prior.ordinal + 1
    && prior.attested.None?
    && if next.owner == prior.owner then
        && next.generation == prior.generation
        && next.heartbeat == prior.heartbeat + 1
        && prior.expiresAt <= next.expiresAt
      else
        && next.generation == prior.generation + 1
        && next.heartbeat == 0
        && next.attested.None?
        && prior.expiresAt <= next.IssuedAt()
  }

  predicate Stamped(claim: Claim, clock: real) {
    && claim.owner.Valid()
    && claim.IssuedAt() <= clock
    && (claim.attested.Some? ==> claim.attested.value.Executed())
  }

  ghost predicate LogOk(log: seq<Claim>, clock: real) {
    && (forall k :: 0 <= k < |log| ==> log[k].ordinal == k && Stamped(log[k], clock))
    && (|log| > 0 ==> Origin(log[0]))
    && (forall k :: 0 < k < |log| ==> Follows(log[k - 1], log[k]))
  }

  ghost predicate AttestedBy(log: seq<Claim>, r: Resolution) {
    exists k :: 0 <= k < |log| && log[k].attested == Some(r)
  }

  ghost predicate HasAttestation(log: seq<Claim>) {
    exists k :: 0 <= k < |log| && log[k].attested.Some?
  }

  /** A bound executed resolution is the attested one. */
  ghost predicate StoreOk(store: Store, clock: real) {
    && LogOk(store.log, clock)
    && (store.bound.Some? && store.bound.value.Executed() ==> AttestedBy(store.log, store.bound.value))
  }

  /** What any sequence of store operations may do: extend the log, set the key once. */
  predicate Grows(before: Store, after: Store) {
    && before.log <= after.log
    && (before.bound.Some? ==> after.bound == before.bound)
  }

  // ---------------------------------------------------------------- consequences

  /** An attestation is the last event of the log, so there is at most one. */
  lemma AttestationEndsLog(log: seq<Claim>, clock: real, k: nat)
    requires LogOk(log, clock) && k < |log| && log[k].attested.Some?
    ensures k == |log| - 1
  {
    assert k + 1 < |log| ==> Follows(log[k], log[k + 1]);
  }

  /** Reading a well-formed log one event at a time never trips a check. */
  lemma ScanNeverFails(log: seq<Claim>, clock: real, k: nat)
    requires LogOk(log, clock) && k < |log|
    ensures ScanCheck(if k == 0 then None else Some(log[k - 1]), log[k], k) == None
  {
    if k > 0 {
      assert Follows(log[k - 1], log[k]);
    }
  }

  /** Generations never go back, and within one generation the expiry never goes back. */
  lemma {:induction false} GenerationsAdvance(log: seq<Claim>, clock: real, i: nat, j: nat)
    requires LogOk(log, clock) && i <= j < |log|
    ensures log[i].generation <= log[j].generation
    ensures log[i].generation == log[j].generation
            ==> log[i].owner == log[j].owner && log[i].expiresAt <= log[j].expiresAt
    ensures log[i].generation < log[j].generation ==> log[i].expiresAt <= log[j].IssuedAt()
    decreases j - i
  {
    if i < j {
      GenerationsAdvance(log, clock, i, j - 1);
      assert Follows(log[j - 1], log[j]);
      assert log[j].owner.Valid() && log[j - 1].owner.Valid() by {
        assert Stamped(log[j], clock) && Stamped(log[j - 1], clock);
      }
      if log[i].generation < log[j - 1].generation == log[j].generation {
        RenewalStampsAdvance(log, clock, j);
      }
    }
  }

  lemma RenewalStampsAdvance(log: seq<Claim>, clock: real, j: nat)
    requires LogOk(log, clock) && 0 < j < |log| && log[j - 1].generation == log[j].generation
    ensures log[j - 1].IssuedAt() <= log[j].IssuedAt()
  {
    assert Follows(log[j - 1], log[j]);
  }

  /** Leases exclude each other in time: at any instant at most one generation of a well-formed
      log holds an issued and unexpired lease. */
  lemma LeasesExclude(log: seq<Claim>, clock: real, i: nat, j: nat, now: real)
    requires LogOk(log, clock) && i < |log| && j < |log|
    requires log[i].IssuedAt() <= now < log[i].expiresAt
    requires log[j].IssuedAt() <= now < log[j].expiresAt
    ensures log[i].generation == log[j].generation && log[i].owner == log[j].owner
  {
    if i <= j {
      GenerationsAdvance(log, clock, i, j);
    } else {
      GenerationsAdvance(log, clock, j, i);
    }
  }

  /** Binding an admitted event at the end of the log keeps the log well formed. */
  lemma AppendKeepsLog(log: seq<Claim>, clock: real, event: Claim)
    requires LogOk(log, clock)
    requires event.ordinal == |log| && Stamped(event, clock)
    requires if |log| == 0 then Origin(event) else Follows(log[|log| - 1], event)
    ensures LogOk(log + [event], clock)
  {
    var after := log + [event];
    forall k | 0 < k < |after|
      ensures Follows(after[k - 1], after[k])
    {
      if k < |log| {
        assert Follows(log[k - 1], log[k]);
      }
    }
  }

  lemma ClockKeepsStore(store: Store, clock: real, later: real)
    requires StoreOk(store, clock) && clock <= later
    ensures StoreOk(store, later)
  {
    forall k | 0 <= k < |store.log|
      ensures Stamped(store.log[k], later)
    {
      assert Stamped(store.log[k], clock);
    }
  }
}
