/** Every interleaving of any number of resolvers of one evaluation intent.

    A service instance has a main thread, which runs `_resolve_claimed`, and a heartbeat thread.
    One step of a thread is one store operation, one clock reading or one evaluation; between
    two steps of a thread any other thread may move, the clock may advance and any thread may
    crash.  The heartbeat is allowed at any time and for any generation, which covers every
    moment at which the source can run it. */
module ClaimMachine {
  import opened ClaimLog

  datatype Role = Main | Heartbeat
  datatype ThreadId = ThreadId(owner: Owner, role: Role)

  /** What a scan of the log is for; one constructor for each caller of `_latest_claim`. */
  datatype Goal =
    | BeforeClaim
    | Claiming
    | AfterClaim(owned: Option<nat>)
    | Renewing(held: nat)
    | Asserting(held: nat, onward: AfterAssert)
    | Publishing(held: nat, r: Resolution)
    | Validating(r: Resolution, next: AfterValidate, late: bool)

  datatype AfterAssert = ThenResolve | ThenEvaluate | ThenBind(r: Resolution)
  datatype AfterValidate = ToBind | ToReturn

  /** Why an event is being appended; one constructor for each caller of `_append_claim_event`. */
  datatype Cause = FirstClaim | Takeover | Renewal(held: nat) | Attestation(held: nat, r: Resolution)

  datatype DefectKind =
    | ScanDefect(error: ScanError)   // any error of `_latest_claim`
    | AppendMisuse                   // "must start at zero", "must start a generation"
    | EventLost                      // the event just bound cannot be read back
    | EventMisplaced                 // it belongs to another ordinal
    | GapInLog                       // binding past the end of the log
    | ClaimWithoutResult             // "evaluation claim resolved without a result"
    | NotTheAttested                 // a result graph whose resolution is not the attested one
    | WinnerVanished                 // a binding conflict without a bound winner
    | HeartbeatFailed                // "evaluation lease heartbeat failed"

  datatype Pc =
    | Idle
    | ResolveFirst
    | ResolveInClaim
    | ResolveSecond(owned: Option<nat>)
    | ResolveThird(held: nat)
    | Scanning(at: nat, latest: Option<Claim>, goal: Goal)
    | Checking(prior: Option<Claim>, generation: nat, heartbeat: nat, cause: Cause)
    | Stamping(prior: Option<Claim>, generation: nat, heartbeat: nat, cause: Cause)
    | BindingEvent(event: Claim, cause: Cause)
    | ReadingEvent(at: nat, cause: Cause)
    | Evaluating(held: nat)
    | BindingKey(r: Resolution, late: bool)
    | ReadingWinner(late: bool)
    | CheckingHeartbeat(r: Resolution)
    | Returned(r: Resolution)
    | Raised
    | Defect(kind: DefectKind)

  /** The choices that the environment makes for a thread. */
  datatype Choice = Go | Crash | Call | Beat(generation: nat) | Produce(r: Resolution)

  datatype Moved = Moved(store: Store, pc: Pc)

  datatype Sys = Sys(store: Store, clock: real, threads: map<ThreadId, Pc>, returned: set<Resolution>)

  datatype Event = Tick(elapsed: real) | Act(thread: ThreadId, choice: Choice)

  // ---------------------------------------------------------------- steps

  function Rescan(goal: Goal): Pc { Scanning(0, None, goal) }

  /** `_load` of a bound resolution: only an executed one needs its attestation. */
  function Load(r: Resolution, late: bool): Pc {
    if r.Executed() then Rescan(Validating(r, ToReturn, late)) else Accept(r, late)
  }

  /** `_bind`: validate the result graph, then bind. */
  function StartBind(r: Resolution, late: bool): Pc {
    if r.Executed() then Rescan(Validating(r, ToBind, late)) else BindingKey(r, late)
  }

  /** A resolution reached under the heartbeat still passes the check after the join. */
  function Accept(r: Resolution, late: bool): Pc {
    if late then CheckingHeartbeat(r) else Returned(r)
  }

  predicate OwnedBy(latest: Option<Claim>, owner: Owner, held: nat) {
    latest.Some? && latest.value.owner == owner && latest.value.generation == held
  }

  /** The rest of a loop round of `_claim`, once it knows the winning event. */
  function AfterWinner(winner: Claim, owner: Owner, clock: real): Pc {
    if winner.attested.Some? then ResolveSecond(None)
    else if winner.owner == owner then ResolveSecond(Some(winner.generation))
    else if winner.expiresAt - clock <= 0.0 then
      Checking(Some(winner), winner.generation + 1, 0, Takeover)
    else ResolveInClaim
  }

  /** What a thread does with the result of `_latest_claim`. */
  function AfterScan(latest: Option<Claim>, goal: Goal, owner: Owner, clock: real): Pc {
    match goal
    case BeforeClaim =>
      if latest.Some? && latest.value.attested.Some?
      then StartBind(latest.value.attested.value, false) else ResolveInClaim
    case Claiming =>
      if latest.None? then Checking(None, 0, 0, FirstClaim)
      else AfterWinner(latest.value, owner, clock)
    case AfterClaim(owned) =>
      if latest.Some? && latest.value.attested.Some?
      then StartBind(latest.value.attested.value, false)
      else if owned.None? then Defect(ClaimWithoutResult)
      else Rescan(Renewing(owned.value))
    case Renewing(held) =>
      if !OwnedBy(latest, owner, held) then Raised
      else if latest.value.attested.Some? then Rescan(Asserting(held, ThenResolve))
      else Checking(latest, held, latest.value.heartbeat + 1, Renewal(held))
    case Asserting(held, onward) =>
      if !OwnedBy(latest, owner, held) then Raised
      else (match onward
            case ThenResolve => ResolveThird(held)
            case ThenEvaluate => Evaluating(held)
            case ThenBind(r) => StartBind(r, true))
    case Publishing(held, r) =>
      if !OwnedBy(latest, owner, held) then Raised
      else if latest.value.attested.Some? then
        if latest.value.attested.value == r then StartBind(r, true) else Raised
      else Checking(latest, held, latest.value.heartbeat + 1, Attestation(held, r))
    case Validating(r, next, late) =>
      if latest.None? || latest.value.attested != Some(r) then Defect(NotTheAttested)
      else if next.ToBind? then BindingKey(r, late)
      else Accept(r, late)
  }

  /** What a thread does with the event that `_append_claim_event` read back. */
  function AfterAppend(winner: Claim, cause: Cause, owner: Owner, clock: real): Pc {
    match cause
    case FirstClaim => AfterWinner(winner, owner, clock)
    case Takeover =>
      if winner.owner == owner then ResolveSecond(Some(winner.generation)) else ResolveInClaim
    case Renewal(held) =>
      if !OwnedBy(Some(winner), owner, held) then Raised else Rescan(Asserting(held, ThenResolve))
    case Attestation(held, r) =>
      if !OwnedBy(Some(winner), owner, held) then Raised
      else if winner.attested == Some(r) then StartBind(r, true)
      else if winner.attested.Some? then Raised
      else Rescan(Publishing(held, r))
  }

  function AttestedField(cause: Cause): Option<Resolution> {
    if cause.Attestation? then Some(cause.r) else None
  }

  function Advance(store: Store, clock: real, owner: Owner, pc: Pc, choice: Choice): Moved {
    match pc
    case Scanning(at, latest, goal) =>
      if at >= |store.log| then Moved(store, AfterScan(latest, goal, owner, clock))
      else
        var error := ScanCheck(latest, store.log[at], at);
        Moved(store, if error.Some? then Defect(ScanDefect(error.value))
                     else Scanning(at + 1, Some(store.log[at]), goal))
    case ResolveFirst =>
      Moved(store, if store.bound.Some? then Load(store.bound.value, false) else Rescan(BeforeClaim))
    case ResolveInClaim =>
      Moved(store, if store.bound.Some? then ResolveSecond(None) else Rescan(Claiming))
    case ResolveSecond(owned) =>
      Moved(store, if store.bound.Some? then Load(store.bound.value, false) else Rescan(AfterClaim(owned)))
    case ResolveThird(held) =>
      Moved(store, if store.bound.Some? then Load(store.bound.value, true)
                   else Rescan(Asserting(held, ThenEvaluate)))
    case Checking(prior, generation, heartbeat, cause) =>
      (match CheckAppend(prior, owner, generation, heartbeat, clock)
       case Lost => Moved(store, Raised)
       case Misuse => Moved(store, Defect(AppendMisuse))
       case Admit(_) => Moved(store, Stamping(prior, generation, heartbeat, cause)))
    case Stamping(prior, generation, heartbeat, cause) =>
      var at := if prior.None? then 0 else prior.value.ordinal + 1;
      Moved(store, BindingEvent(
        Claim(owner, at, generation, heartbeat, clock + owner.lease, AttestedField(cause)), cause))
    case BindingEvent(event, cause) =>
      if event.ordinal > |store.log| then Moved(store, Defect(GapInLog))
      else if event.ordinal == |store.log| then
        Moved(store.(log := store.log + [event]), ReadingEvent(event.ordinal, cause))
      else Moved(store, ReadingEvent(event.ordinal, cause))  // idempotent, or another event won
    case ReadingEvent(at, cause) =>
      if at >= |store.log| then Moved(store, Defect(EventLost))
      else if store.log[at].ordinal != at then Moved(store, Defect(EventMisplaced))
      else Moved(store, AfterAppend(store.log[at], cause, owner, clock))
    case Evaluating(held) =>
      if !choice.Produce? then Moved(store, pc)
      else if choice.r.Executed() then Moved(store, Rescan(Publishing(held, choice.r)))
      else Moved(store, Rescan(Asserting(held, ThenBind(choice.r))))
    case BindingKey(r, late) =>
      if store.bound.None? then Moved(store.(bound := Some(r)), Accept(r, late))
      else if store.bound.value == r then Moved(store, Accept(r, late))
      else Moved(store, ReadingWinner(late))
    case ReadingWinner(late) =>
      Moved(store, if store.bound.None? then Defect(WinnerVanished) else Load(store.bound.value, late))
    case CheckingHeartbeat(r) =>
      Moved(store, if store.bound.None? then Defect(HeartbeatFailed) else Returned(r))
    case _ => Moved(store, pc)
  }

  /** A heartbeat thread goes back to sleep once its renewal ended, well or badly. */
  function Settle(role: Role, pc: Pc): Pc {
    if role.Heartbeat? && (pc.Raised? || (pc.Scanning? && pc.goal.Asserting?)) then Idle else pc
  }

  function MoveThread(store: Store, clock: real, thread: ThreadId, pc: Pc, choice: Choice): Moved {
    if choice.Crash? && !pc.Returned? && !pc.Defect? then Moved(store, Raised)
    else if pc.Idle? || pc.Raised? || pc.Returned? then
      if choice.Call? && thread.role.Main? then Moved(store, ResolveFirst)
      else if choice.Beat? && thread.role.Heartbeat? then Moved(store, Rescan(Renewing(choice.generation)))
      else Moved(store, pc)
    else
      var moved := Advance(store, clock, thread.owner, pc, choice);
      moved.(pc := Settle(thread.role, moved.pc))
  }

  function PcOf(sys: Sys, thread: ThreadId): Pc {
    if thread in sys.threads then sys.threads[thread] else Idle
  }

  function Apply(sys: Sys, event: Event): Sys {
    match event
    case Tick(elapsed) => if elapsed < 0.0 then sys else sys.(clock := sys.clock + elapsed)
    case Act(thread, choice) =>
      if !thread.owner.Valid() then sys   // the constructor refuses a lease that is not positive
      else
        var moved := MoveThread(sys.store, sys.clock, thread, PcOf(sys, thread), choice);
        sys.(store := moved.store,
             threads := sys.threads[thread := moved.pc],
             returned := if moved.pc.Returned? then sys.returned + {moved.pc.r} else sys.returned)
  }

  const INITIAL: Sys := Sys(Store([], None), 0.0, map[], {})

  function Run(events: seq<Event>): Sys {
    if events == [] then INITIAL else Apply(Run(events[..|events| - 1]), events[|events| - 1])
  }

  // ---------------------------------------------------------------- invariant of one thread

  ghost predicate ScanOk(store: Store, at: nat, latest: Option<Claim>) {
    at <= |store.log| && latest == if at == 0 then None else Some(store.log[at - 1])
  }

  ghost predicate GoalOk(store: Store, goal: Goal) {
    match goal
    case AfterClaim(owned) => owned.None? ==> HasAttestation(store.log)
    case Publishing(_, r) => r.Executed()
    case Asserting(_, onward) => onward.ThenBind? ==> !onward.r.Executed()
    case Validating(r, next, _) =>
      && AttestedBy(store.log, r)
      && (next.ToReturn? ==> store.bound == Some(r))
    case _ => true
  }

  ghost predicate CauseOk(cause: Cause) {
    cause.Attestation? ==> cause.r.Executed()
  }

  /** The event about to be appended would rightly follow the event it was prepared for. */
  ghost predicate ProposalOk(store: Store, owner: Owner, prior: Option<Claim>, generation: nat, heartbeat: nat, cause: Cause) {
    && CauseOk(cause)
    && if prior.None? then generation == 0 && heartbeat == 0 && cause.FirstClaim?
       else
         && prior.value.ordinal < |store.log| && store.log[prior.value.ordinal] == prior.value
         && prior.value.attested.None?
         && if cause.Takeover? then
              prior.value.owner != owner && generation == prior.value.generation + 1 && heartbeat == 0
            else
              && !cause.FirstClaim?
              && prior.value.owner == owner && generation == prior.value.generation
              && heartbeat == prior.value.heartbeat + 1
  }

  ghost predicate EventReady(store: Store, event: Claim) {
    if event.ordinal == 0 then Origin(event)
    else event.ordinal - 1 < |store.log| && Follows(store.log[event.ordinal - 1], event)
  }

  ghost predicate ThreadOk(store: Store, clock: real, owner: Owner, pc: Pc) {
    match pc
    case Scanning(at, latest, goal) => ScanOk(store, at, latest) && GoalOk(store, goal)
    case ResolveSecond(owned) => owned.None? ==> store.bound.Some? || HasAttestation(store.log)
    case Checking(prior, generation, heartbeat, cause) =>
      && ProposalOk(store, owner, prior, generation, heartbeat, cause)
      && (cause.Takeover? ==> prior.Some? && prior.value.expiresAt <= clock)
    case Stamping(prior, generation, heartbeat, cause) =>
      && ProposalOk(store, owner, prior, generation, heartbeat, cause)
      && (cause.Takeover? ==> prior.Some? && prior.value.expiresAt <= clock)
    case BindingEvent(event, cause) =>
      CauseOk(cause) && Stamped(event, clock) && EventReady(store, event)
    case ReadingEvent(at, cause) => CauseOk(cause) && at < |store.log|
    case BindingKey(r, _) => r.Executed() ==> AttestedBy(store.log, r)
    case ReadingWinner(_) => store.bound.Some?
    case CheckingHeartbeat(r) => store.bound == Some(r)
    case Returned(r) => store.bound == Some(r)
    case Defect(_) => false
    case _ => true
  }

  ghost predicate Inv(sys: Sys) {
    && StoreOk(sys.store, sys.clock)
    && (forall t :: t in sys.threads ==>
          t.owner.Valid() && ThreadOk(sys.store, sys.clock, t.owner, sys.threads[t]))
    && (forall r :: r in sys.returned ==> sys.store.bound == Some(r))
  }

  // ---------------------------------------------------------------- stability

  /** What a thread knows stays true while others extend the store and time passes. */
  lemma OthersKeepThread(before: Store, after: Store, clock: real, later: real, owner: Owner, pc: Pc)
    requires Grows(before, after) && clock <= later
    requires ThreadOk(before, clock, owner, pc)
    ensures ThreadOk(after, later, owner, pc)
  {
    assert HasAttestation(before.log) ==> HasAttestation(after.log) by { AttestationsPersist(before, after); }
    match pc
    case Scanning(at, latest, goal) =>
      if goal.Validating? { AttestedPersists(before, after, goal.r); }
    case BindingKey(r, _) =>
      if r.Executed() { AttestedPersists(before, after, r); }
    case _ =>
  }

  lemma AttestedPersists(before: Store, after: Store, r: Resolution)
    requires Grows(before, after) && AttestedBy(before.log, r)
    ensures AttestedBy(after.log, r)
  {
    var k :| 0 <= k < |before.log| && before.log[k].attested == Some(r);
    assert after.log[k].attested == Some(r);
  }

  lemma AttestationsPersist(before: Store, after: Store)
    requires Grows(before, after)
    ensures HasAttestation(before.log) ==> HasAttestation(after.log)
  {
    if HasAttestation(before.log) {
      var k :| 0 <= k < |before.log| && before.log[k].attested.Some?;
      assert after.log[k].attested.Some?;
    }
  }

  // ---------------------------------------------------------------- one step of one thread

  /** A completed scan saw the attestation, if there is one: it is the last event. */
  lemma ScanSeesAttestation(store: Store, clock: real, latest: Option<Claim>)
    requires StoreOk(store, clock) && ScanOk(store, |store.log|, latest)
    ensures HasAttestation(store.log) ==> latest.Some? && latest.value.attested.Some?
    ensures forall r :: AttestedBy(store.log, r) ==> latest.Some? && latest.value.attested == Some(r)
    ensures latest.Some? && latest.value.attested.Some?
            ==> AttestedBy(store.log, latest.value.attested.value) && latest.value.attested.value.Executed()
  {
    forall k | 0 <= k < |store.log| && store.log[k].attested.Some?
      ensures k == |store.log| - 1
    {
      AttestationEndsLog(store.log, clock, k);
    }
    if latest.Some? {
      assert Stamped(store.log[|store.log| - 1], clock);
    }
  }

  lemma AfterScanOk(store: Store, clock: real, owner: Owner, latest: Option<Claim>, goal: Goal)
    requires StoreOk(store, clock)
    requires ScanOk(store, |store.log|, latest) && GoalOk(store, goal)
    ensures ThreadOk(store, clock, owner, AfterScan(latest, goal, owner, clock))
  {
    ScanSeesAttestation(store, clock, latest);
    if latest.Some? {
      assert latest.value.ordinal == |store.log| - 1;
    }
  }

  lemma AfterAppendOk(store: Store, clock: real, owner: Owner, at: nat, cause: Cause)
    requires StoreOk(store, clock) && at < |store.log| && CauseOk(cause)
    ensures ThreadOk(store, clock, owner, AfterAppend(store.log[at], cause, owner, clock))
  {
    var winner := store.log[at];
    assert winner.ordinal == at;
    if winner.attested.Some? {
      assert AttestedBy(store.log, winner.attested.value);
      assert HasAttestation(store.log);
    }
  }

  lemma BindEventOk(store: Store, clock: real, owner: Owner, event: Claim, cause: Cause)
    requires StoreOk(store, clock)
    requires ThreadOk(store, clock, owner, BindingEvent(event, cause))
    ensures var moved := Advance(store, clock, owner, BindingEvent(event, cause), Go);
            && StoreOk(moved.store, clock) && Grows(store, moved.store)
            && ThreadOk(moved.store, clock, owner, moved.pc)
  {
    if event.ordinal == |store.log| {
      AppendKeepsLog(store.log, clock, event);
      var after := store.(log := store.log + [event]);
      if store.bound.Some? && store.bound.value.Executed() {
        AttestedPersists(store, after, store.bound.value);
      }
    }
  }

  lemma AdvanceOk(store: Store, clock: real, owner: Owner, pc: Pc, choice: Choice)
    requires owner.Valid() && StoreOk(store, clock) && ThreadOk(store, clock, owner, pc)
    ensures var moved := Advance(store, clock, owner, pc, choice);
            && StoreOk(moved.store, clock) && Grows(store, moved.store)
            && ThreadOk(moved.store, clock, owner, moved.pc)
  {
    match pc
    case Scanning(at, latest, goal) =>
      if at >= |store.log| {
        AfterScanOk(store, clock, owner, latest, goal);
      } else {
        ScanNeverFails(store.log, clock, at);
      }
    case BindingEvent(event, cause) => BindEventOk(store, clock, owner, event, cause);
    case ReadingEvent(at, cause) => AfterAppendOk(store, clock, owner, at, cause);
    case _ =>
  }

  // ---------------------------------------------------------------- all runs

  lemma ApplyKeepsInv(sys: Sys, event: Event)
    requires Inv(sys)
    ensures Inv(Apply(sys, event)) && Grows(sys.store, Apply(sys, event).store)
  {
    var after := Apply(sys, event);
    match event
    case Tick(elapsed) =>
      if elapsed >= 0.0 {
        ClockKeepsStore(sys.store, sys.clock, after.clock);
        forall t | t in after.threads
          ensures ThreadOk(after.store, after.clock, t.owner, after.threads[t])
        {
          OthersKeepThread(sys.store, after.store, sys.clock, after.clock, t.owner, sys.threads[t]);
        }
      }
    case Act(thread, choice) =>
      if thread.owner.Valid() {
        var pc := PcOf(sys, thread);
        if !(choice.Crash? || pc.Idle? || pc.Raised? || pc.Returned?) {
          AdvanceOk(sys.store, sys.clock, thread.owner, pc, choice);
        }
        forall t | t in after.threads
          ensures t.owner.Valid() && ThreadOk(after.store, after.clock, t.owner, after.threads[t])
        {
          if t != thread {
            OthersKeepThread(sys.store, after.store, sys.clock, sys.clock, t.owner, sys.threads[t]);
          }
        }
      }
  }

  lemma {:induction false} RunKeepsInv(events: seq<Event>)
    ensures Inv(Run(events))
  {
    if events != [] {
      RunKeepsInv(events[..|events| - 1]);
      ApplyKeepsInv(Run(events[..|events| - 1]), events[|events| - 1]);
    }
  }

  /** Agreement: over every run, whatever any call of any resolver returned is the resolution
      bound at the intent's key, so all of them are the same one. */
  lemma Agreement(events: seq<Event>, r: Resolution, r': Resolution)
    requires r in Run(events).returned && r' in Run(events).returned
    ensures r == r' && Run(events).store.bound == Some(r)
  {
    RunKeepsInv(events);
  }

  /** An executed result that any call returned is the resolution of the one attestation, and
      that attestation is the last event of the claim log. */
  lemma ReturnedResultsAreAttested(events: seq<Event>, r: Resolution)
    requires r in Run(events).returned && r.Executed()
    ensures var log := Run(events).store.log;
            && |log| > 0 && log[|log| - 1].attested == Some(r)
            && forall k :: 0 <= k < |log| - 1 ==> log[k].attested.None?
  {
    RunKeepsInv(events);
    var sys := Run(events);
    assert AttestedBy(sys.store.log, r);
    forall k | 0 <= k < |sys.store.log| && sys.store.log[k].attested.Some?
      ensures k == |sys.store.log| - 1
    {
      AttestationEndsLog(sys.store.log, sys.clock, k);
    }
  }

  /** No thread of any run ever meets an integrity error: none of the log checks, no misuse of
      an append, no claim without a result, no unattested result graph, no lost binding. */
  lemma NoDefectIsReachable(events: seq<Event>, thread: ThreadId)
    ensures !PcOf(Run(events), thread).Defect?
  {
    RunKeepsInv(events);
  }

  /** In every reachable state the log is well formed: it starts at generation 0 and heartbeat 0,
      and every later event renews, attests or takes over its predecessor properly. */
  lemma LogIsWellFormed(events: seq<Event>)
    ensures LogOk(Run(events).store.log, Run(events).clock)
  {
    RunKeepsInv(events);
  }

  /** Nothing a run wrote is ever taken back by a longer run. */
  lemma {:induction false} RunsOnlyGrow(events: seq<Event>, more: seq<Event>)
    ensures Grows(Run(events).store, Run(events + more).store)
    decreases |more|
  {
    if more == [] {
      assert events + more == events;
    } else {
      var most := more[..|more| - 1];
      RunsOnlyGrow(events, most);
      RunKeepsInv(events + most);
      ApplyKeepsInv(Run(events + most), more[|more| - 1]);
      assert (events + more)[..|events + more| - 1] == events + most;
    }
  }

  /** Calls agree across time as well: a result returned by a prefix of a run is the only result
      that the whole run can ever return. */
  lemma AgreementOverTime(events: seq<Event>, more: seq<Event>, r: Resolution, r': Resolution)
    requires r in Run(events).returned && r' in Run(events + more).returned
    ensures r == r'
  {
    RunKeepsInv(events);
    RunKeepsInv(events + more);
    RunsOnlyGrow(events, more);
  }

  /** Fencing: once a run has seen some claim, only its own generation or a later one can ever attest, and only
      its own owner can attest that generation; an owner that was taken over never does. */
  lemma FencedOwnersNeverAttest(events: seq<Event>, more: seq<Event>, i: nat, k: nat)
    requires i < |Run(events).store.log| && k < |Run(events + more).store.log|
    requires Run(events + more).store.log[k].attested.Some?
    ensures var seen, attestation := Run(events).store.log[i], Run(events + more).store.log[k];
            && seen.generation <= attestation.generation
            && (seen.generation == attestation.generation ==> seen.owner == attestation.owner)
  {
    RunKeepsInv(events + more);
    RunsOnlyGrow(events, more);
    var sys := Run(events + more);
    AttestationEndsLog(sys.store.log, sys.clock, k);
    GenerationsAdvance(sys.store.log, sys.clock, i, k);
  }

  /** Once the key is bound beside an attestation, it holds the attested result or a rejection: the binding
      of a rejection is checked and made in two steps, so it can overtake an attestation. */
  lemma AttestedIsBoundIff(events: seq<Event>, attested: Resolution, bound: Resolution)
    requires AttestedBy(Run(events).store.log, attested)
    requires Run(events).store.bound == Some(bound)
    ensures attested == bound <==> bound.outcome != Rejected
  {
    RunKeepsInv(events);
    var sys := Run(events);
    var k :| 0 <= k < |sys.store.log| && sys.store.log[k].attested == Some(attested);
    AttestationEndsLog(sys.store.log, sys.clock, k);
    assert Stamped(sys.store.log[k], sys.clock);
    if bound.Executed() {
      var j :| 0 <= j < |sys.store.log| && sys.store.log[j].attested == Some(bound);
      AttestationEndsLog(sys.store.log, sys.clock, j);
    }
  }
}
