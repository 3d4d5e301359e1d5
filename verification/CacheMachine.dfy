/** Every interleaving of cache calls on any number of keys, with a crash allowed before every file
    operation.  The key's file lock admits one call per key at a time and is released by a crash. */
module CacheMachine {
  import opened PromptCacheFiles

  /** What holds a key's lock: `get_result`, `put` of a record, or `execute_call`. */
  datatype Job = Get | Put(record: int) | Call

  /** Where the clean-up of a journal continues: with the interrupted call, or with its return. */
  datatype Next = Resume(job: Job) | Complete(record: int, called: bool)

  datatype Pc =
    | Free
    | Reconciling(job: Job)
    | Discarding(job: Job)
    | Reading(job: Job)
    | Quarantining(job: Job)
    | Hitting(record: int)
    | Calling
    | Journaling(record: int, called: bool)
    | Storing(journal: Journal, record: int, called: bool)
    | Counting(journal: Journal, next: Next)
    | Promoting(journal: Journal, next: Next)
    | Releasing(journal: Journal, next: Next)
    | Dropping(journal: Journal, next: Next)
    | Answered(answer: Option<int>)
    | Failed(error: CacheError)

  /** Per key: provider calls made, calls cut short by a crash, entries damaged from outside, and the
      records that were answered. */
  datatype KeyLog = KeyLog(calls: nat, crashes: nat, damages: nat, answers: set<int>)

  datatype Event =
    | Start(key: Key, job: Job)
    | Step(key: Key, result: int, minted: Publication)
    | Crash(key: Key)
    | Damage(key: Key)
    | NoteHit
    | NoteMiss

  /** `losses` counts crashes and damages over all keys, `completed` the finished `execute_call`s. */
  datatype Sys = Sys(world: World, pcs: map<Key, Pc>, logs: map<Key, KeyLog>,
                     losses: nat, completed: nat, notedHits: nat)

  const INITIAL: Sys := Sys(EMPTY, map[], map[], 0, 0, 0)

  function PcOf(sys: Sys, key: Key): Pc {
    if key in sys.pcs then sys.pcs[key] else Free
  }

  function LogOf(sys: Sys, key: Key): KeyLog {
    if key in sys.logs then sys.logs[key] else KeyLog(0, 0, 0, {})
  }

  predicate Unlocked(pc: Pc) {
    pc.Free? || pc.Answered? || pc.Failed?
  }

  // ---------------------------------------------------------------- steps

  datatype Moved = Moved(world: World, pc: Pc)

  function AfterJournal(next: Next): Pc {
    match next
    case Resume(job) => Reading(job)
    case Complete(record, _) => Answered(Some(record))
  }

  /** The branch of `_reconcile_key_accounting_locked`. */
  function Branch(disk: Disk, key: Key, job: Job): Pc {
    if key in disk.pending && key in disk.applied then Failed(BothJournals)
    else if key in disk.applied then
      if key !in disk.entries then Failed(NoPublishedEntry)
      else if disk.entries[key].Corrupt? then Failed(UnreadableEntry)
      else if disk.entries[key].publication != disk.applied[key].publication then Failed(PublicationMismatch)
      else Releasing(disk.applied[key], Resume(job))
    else if key !in disk.pending then Reading(job)
    else if key !in disk.entries then Discarding(job)
    else if disk.entries[key].Corrupt? then Failed(UnreadableEntry)
    else if disk.entries[key].publication != disk.pending[key].publication then Failed(PublicationMismatch)
    else Counting(disk.pending[key], Resume(job))
  }

  function AfterRead(disk: Disk, key: Key, job: Job): Pc {
    if key !in disk.entries then
      (match job
       case Get => Answered(None)
       case Put(record) => Journaling(record, false)
       case Call => Calling)
    else if disk.entries[key].Corrupt? then
      if job.Get? then Failed(UnreadableEntry) else Quarantining(job)
    else if job.Call? then Hitting(disk.entries[key].record)
    else Answered(Some(disk.entries[key].record))
  }

  function Advance(w: World, key: Key, pc: Pc, result: int, minted: Publication): Moved {
    match pc
    case Reconciling(job) => Moved(w, Branch(w.disk, key, job))
    case Discarding(job) => Moved(DropPending(w, key), Reading(job))
    case Reading(job) => Moved(w, AfterRead(w.disk, key, job))
    case Quarantining(job) =>
      Moved(Quarantine(w, key), if job.Put? then Journaling(job.record, false) else Calling)
    case Hitting(record) => Moved(Note(w, 1, 0), Answered(Some(record)))
    case Calling => Moved(w, Journaling(result, true))
    case Journaling(record, called) =>
      if minted in w.history.home then Moved(w, pc)   // publication ids never repeat
      else
        var journal := Journal(key, minted, if called then 1 else 0);
        Moved(WritePending(w, journal), Storing(journal, record, called))
    case Storing(journal, record, called) =>
      Moved(WriteEntry(w, journal, record), Counting(journal, Complete(record, called)))
    case Counting(journal, next) => Moved(Count(w, journal), Promoting(journal, next))
    case Promoting(journal, next) => Moved(Promote(w, journal), Releasing(journal, next))
    case Releasing(journal, next) => Moved(Release(w, journal), Dropping(journal, next))
    case Dropping(journal, next) => Moved(DropApplied(w, key), AfterJournal(next))
    case _ => Moved(w, pc)
  }

  /** `execute_call` returns when it answers a hit or when its own publication is cleaned up. */
  predicate Completes(pc: Pc) {
    pc.Hitting? || (pc.Dropping? && pc.next.Complete? && pc.next.called)
  }

  function Record(log: KeyLog, pc: Pc, moved: Pc): KeyLog {
    log.(calls := log.calls + (if pc.Calling? then 1 else 0),
         answers := log.answers + (if moved.Answered? && moved.answer.Some? then {moved.answer.value} else {}))
  }

  function Apply(sys: Sys, event: Event): Sys {
    match event
    case Start(key, job) =>
      if Unlocked(PcOf(sys, key)) then sys.(pcs := sys.pcs[key := Reconciling(job)]) else sys
    case Step(key, result, minted) =>
      var pc := PcOf(sys, key);
      if Unlocked(pc) then sys
      else
        var moved := Advance(sys.world, key, pc, result, minted);
        sys.(world := moved.world,
             pcs := sys.pcs[key := moved.pc],
             logs := sys.logs[key := Record(LogOf(sys, key), pc, moved.pc)],
             completed := sys.completed + (if Completes(pc) then 1 else 0))
    case Crash(key) =>
      if Unlocked(PcOf(sys, key)) then sys
      else
        var log := LogOf(sys, key);
        sys.(pcs := sys.pcs[key := Free],
             logs := sys.logs[key := log.(crashes := log.crashes + 1)],
             losses := sys.losses + 1)
    case Damage(key) =>
      // Outside damage is only considered while the key is settled.
      if !Unlocked(PcOf(sys, key)) || Journaled(sys.world.disk, key) || key !in sys.world.disk.entries then sys
      else
        var log := LogOf(sys, key);
        sys.(world := sys.world.(disk := sys.world.disk.(entries := sys.world.disk.entries[key := Corrupt])),
             logs := sys.logs[key := log.(damages := log.damages + 1)],
             losses := sys.losses + 1)
    case NoteHit => sys.(world := Note(sys.world, 1, 0), notedHits := sys.notedHits + 1)
    case NoteMiss => sys.(world := Note(sys.world, 0, 1))
  }

  function Run(events: seq<Event>): Sys {
    if events == [] then INITIAL else Apply(Run(events[..|events| - 1]), events[|events| - 1])
  }

  // ---------------------------------------------------------------- invariant

  predicate Holding(w: World, key: Key, record: int) {
    key in w.disk.entries && w.disk.entries[key].Entry? && w.disk.entries[key].record == record
  }

  predicate NextOk(w: World, key: Key, journal: Journal, next: Next) {
    next.Complete? ==> Holding(w, key, next.record) && journal.misses == if next.called then 1 else 0
  }

  /** What the lock holder of `key` knows about the key's own files. */
  predicate PcOk(w: World, key: Key, pc: Pc) {
    match pc
    case Discarding(_) => key in w.disk.pending && key !in w.disk.entries
    case Reading(_) => !Journaled(w.disk, key)
    case Quarantining(job) => !Journaled(w.disk, key) && key in w.disk.entries && w.disk.entries[key].Corrupt? && !job.Get?
    case Hitting(record) => !Journaled(w.disk, key) && Holding(w, key, record)
    case Calling => !Journaled(w.disk, key) && key !in w.disk.entries
    case Journaling(_, _) => !Journaled(w.disk, key) && key !in w.disk.entries
    case Storing(journal, _, called) =>
      key in w.disk.pending && w.disk.pending[key] == journal && key !in w.disk.entries
      && journal.misses == if called then 1 else 0
    case Counting(journal, next) =>
      key in w.disk.pending && w.disk.pending[key] == journal && journal.publication in w.history.written
      && NextOk(w, key, journal, next)
    case Promoting(journal, next) =>
      key in w.disk.pending && w.disk.pending[key] == journal && journal.publication in w.history.counted
      && NextOk(w, key, journal, next)
    case Releasing(journal, next) =>
      key in w.disk.applied && w.disk.applied[key] == journal && NextOk(w, key, journal, next)
    case Dropping(journal, next) =>
      key in w.disk.applied && w.disk.applied[key] == journal && NextOk(w, key, journal, next)
      && journal.publication !in w.disk.stats.inflight
    case Failed(error) => error == UnreadableEntry
    case _ => true
  }

  /** A provider call that no crash or damage has wasted is visible: it left the entry, or its
      result is still on its way to the disk. */
  predicate CallUnderWay(pc: Pc) {
    (pc.Journaling? && pc.called) || (pc.Storing? && pc.called)
  }

  predicate CallsOk(w: World, key: Key, pc: Pc, log: KeyLog) {
    log.calls <= log.crashes + log.damages + (if CallUnderWay(pc) || (key in w.disk.entries && w.disk.entries[key].Entry?) then 1 else 0)
  }

  predicate AnswersOk(w: World, key: Key, log: KeyLog) {
    log.damages == 0 ==>
      && (forall r :: r in log.answers ==> Holding(w, key, r))
      && (key in w.disk.entries ==> w.disk.entries[key].Entry?)
  }

  predicate KeyOk(w: World, key: Key, pc: Pc, log: KeyLog) {
    && PcOk(w, key, pc)
    && CallsOk(w, key, pc, log)
    && AnswersOk(w, key, log)
  }

  ghost predicate Inv(sys: Sys) {
    && AccountingOk(sys.world)
    && (forall k :: KeyOk(sys.world, k, PcOf(sys, k), LogOf(sys, k)))
  }

  // ---------------------------------------------------------------- preservation

  /** Steps on one key leave what other lock holders know alone. */
  predicate SameKey(before: World, after: World, key: Key) {
    && (key in before.disk.pending <==> key in after.disk.pending)
    && (key in before.disk.pending ==> after.disk.pending[key] == before.disk.pending[key])
    && (key in before.disk.applied <==> key in after.disk.applied)
    && (key in before.disk.applied ==> after.disk.applied[key] == before.disk.applied[key])
    && (key in before.disk.entries <==> key in after.disk.entries)
    && (key in before.disk.entries ==> after.disk.entries[key] == before.disk.entries[key])
    && before.history.written <= after.history.written
    && before.history.counted <= after.history.counted
    && (forall p :: p in after.disk.stats.inflight && p !in before.disk.stats.inflight ==>
          p in after.history.home && after.history.home[p] != key)
  }

  lemma SameKeyKeeps(before: World, after: World, key: Key, pc: Pc, log: KeyLog)
    requires AccountingOk(before) && AccountingOk(after) && SameKey(before, after, key)
    requires KeyOk(before, key, pc, log)
    ensures KeyOk(after, key, pc, log)
  {
    if pc.Dropping? {
      assert AppliedOk(after, key);
    }
  }

  lemma AdvanceKeepsAccounting(w: World, key: Key, pc: Pc, result: int, minted: Publication)
    requires AccountingOk(w) && PcOk(w, key, pc)
    ensures AccountingOk(Advance(w, key, pc, result, minted).world)
  {
    match pc
    case Discarding(_) => DropPendingKeeps(w, key);
    case Quarantining(_) => EntryChangeKeeps(w, key, Quarantine(w, key));
    case Hitting(_) => NoteKeeps(w, 1, 0);
    case Journaling(_, called) =>
      if minted !in w.history.home {
        WritePendingKeeps(w, Journal(key, minted, if called then 1 else 0));
      }
    case Storing(_, record, _) => WriteEntryKeeps(w, key, record);
    case Counting(_, _) => CountKeeps(w, key);
    case Promoting(_, _) => PromoteKeeps(w, key);
    case Releasing(_, _) => ReleaseKeeps(w, key);
    case Dropping(_, _) => DropAppliedKeeps(w, key);
    case _ =>
  }

  lemma AdvanceKeepsPc(w: World, key: Key, pc: Pc, result: int, minted: Publication)
    requires AccountingOk(w) && PcOk(w, key, pc)
    ensures var moved := Advance(w, key, pc, result, minted); PcOk(moved.world, key, moved.pc)
  {
    assert key in w.disk.pending ==> PendingOk(w, key);
    assert key in w.disk.applied ==> AppliedOk(w, key);
  }

  lemma AdvanceKeepsOthers(w: World, key: Key, pc: Pc, result: int, minted: Publication, k: Key)
    requires AccountingOk(w) && PcOk(w, key, pc) && k != key
    ensures SameKey(w, Advance(w, key, pc, result, minted).world, k)
  {
    assert key in w.disk.pending ==> PendingOk(w, key);
    assert key in w.disk.applied ==> AppliedOk(w, key);
  }

  lemma StepOk(sys: Sys, key: Key, result: int, minted: Publication)
    requires Inv(sys) && !Unlocked(PcOf(sys, key))
    ensures Inv(Apply(sys, Step(key, result, minted)))
  {
    var after := Apply(sys, Step(key, result, minted));
    var pc, moved := PcOf(sys, key), Advance(sys.world, key, PcOf(sys, key), result, minted);
    assert KeyOk(sys.world, key, pc, LogOf(sys, key));
    AdvanceKeepsAccounting(sys.world, key, pc, result, minted);
    AdvanceKeepsKey(sys.world, key, pc, LogOf(sys, key), result, minted);
    assert after.world == moved.world && PcOf(after, key) == moved.pc;
    forall k
      ensures KeyOk(after.world, k, PcOf(after, k), LogOf(after, k))
    {
      if k != key {
        AdvanceKeepsOthers(sys.world, key, pc, result, minted, k);
        SameKeyKeeps(sys.world, after.world, k, PcOf(sys, k), LogOf(sys, k));
      }
    }
  }

  lemma AdvanceKeepsKey(w: World, key: Key, pc: Pc, log: KeyLog, result: int, minted: Publication)
    requires AccountingOk(w) && KeyOk(w, key, pc, log) && !Unlocked(pc)
    ensures var moved := Advance(w, key, pc, result, minted);
            KeyOk(moved.world, key, moved.pc, Record(log, pc, moved.pc))
  {
    assert key in w.disk.pending ==> PendingOk(w, key);
    AdvanceKeepsPc(w, key, pc, result, minted);
    AdvanceKeepsCalls(w, key, pc, log, result, minted);
    AdvanceKeepsAnswers(w, key, pc, log, result, minted);
  }

  lemma AdvanceKeepsCalls(w: World, key: Key, pc: Pc, log: KeyLog, result: int, minted: Publication)
    requires PcOk(w, key, pc) && CallsOk(w, key, pc, log) && !Unlocked(pc)
    requires key in w.disk.pending ==> w.disk.pending[key].key == key
    ensures var moved := Advance(w, key, pc, result, minted);
            CallsOk(moved.world, key, moved.pc, Record(log, pc, moved.pc))
  {
  }

  lemma AdvanceKeepsAnswers(w: World, key: Key, pc: Pc, log: KeyLog, result: int, minted: Publication)
    requires PcOk(w, key, pc) && AnswersOk(w, key, log) && !Unlocked(pc)
    requires key in w.disk.pending ==> w.disk.pending[key].key == key
    ensures var moved := Advance(w, key, pc, result, minted);
            AnswersOk(moved.world, key, Record(log, pc, moved.pc))
  {
  }

  lemma DamageOk(sys: Sys, key: Key)
    requires Inv(sys)
    ensures Inv(Apply(sys, Damage(key)))
  {
    var after := Apply(sys, Damage(key));
    if after != sys {
      assert KeyOk(sys.world, key, PcOf(sys, key), LogOf(sys, key));
      EntryChangeKeeps(sys.world, key, after.world);
      forall k
        ensures KeyOk(after.world, k, PcOf(after, k), LogOf(after, k))
      {
        if k != key {
          SameKeyKeeps(sys.world, after.world, k, PcOf(sys, k), LogOf(sys, k));
        }
      }
    }
  }

  lemma ApplyKeepsInv(sys: Sys, event: Event)
    requires Inv(sys)
    ensures Inv(Apply(sys, event))
  {
    var after := Apply(sys, event);
    match event
    case Step(key, result, minted) =>
      if !Unlocked(PcOf(sys, key)) { StepOk(sys, key, result, minted); }
    case Damage(key) => DamageOk(sys, key);
    case NoteHit =>
      NoteKeeps(sys.world, 1, 0);
      forall k ensures KeyOk(after.world, k, PcOf(after, k), LogOf(after, k)) {
        SameKeyKeeps(sys.world, after.world, k, PcOf(sys, k), LogOf(sys, k));
      }
    case NoteMiss =>
      NoteKeeps(sys.world, 0, 1);
      forall k ensures KeyOk(after.world, k, PcOf(after, k), LogOf(after, k)) {
        SameKeyKeeps(sys.world, after.world, k, PcOf(sys, k), LogOf(sys, k));
      }
    case Crash(key) =>
      assert KeyOk(sys.world, key, PcOf(sys, key), LogOf(sys, key));
      forall k ensures KeyOk(after.world, k, PcOf(after, k), LogOf(after, k)) {
        assert KeyOk(sys.world, k, PcOf(sys, k), LogOf(sys, k));
      }
    case Start(key, job) =>
      forall k ensures KeyOk(after.world, k, PcOf(after, k), LogOf(after, k)) {
        assert KeyOk(sys.world, k, PcOf(sys, k), LogOf(sys, k));
      }
  }

  lemma {:induction false} RunKeepsInv(events: seq<Event>)
    ensures Inv(Run(events))
  {
    if events != [] {
      RunKeepsInv(events[..|events| - 1]);
      ApplyKeepsInv(Run(events[..|events| - 1]), events[|events| - 1]);
    }
  }

  // ---------------------------------------------------------------- what every run keeps

  /** Exactly-once accounting over every run: after any interleaving and any crashes, reconciling the
      journaled keys in any order succeeds, leaves nothing in flight and leaves one store for each
      entry write and one miss for each journaled miss whose entry was written. */
  lemma CrashesNeverMiscount(events: seq<Event>, keys: seq<Key>)
    requires forall k :: Journaled(Run(events).world.disk, k) ==> k in keys
    ensures var w := Run(events).world;
            var r := ReconcileAll(w, keys);
            && r.Settled?
            && r.world.disk.stats.stores == |w.history.written|
            && r.world.disk.stats.misses == w.history.notedMisses + |w.history.written * w.history.missed|
            && r.world.disk.stats.inflight == {}
  {
    RunKeepsInv(events);
    ReconcileAllIsExact(Run(events).world, keys);
  }

  /** The journal errors are unreachable: a call can only ever fail on a damaged entry. */
  lemma JournalErrorsAreUnreachable(events: seq<Event>, key: Key)
    ensures PcOf(Run(events), key).Failed? ==> PcOf(Run(events), key).error == UnreadableEntry
    ensures !(key in Run(events).world.disk.pending && key in Run(events).world.disk.applied)
  {
    RunKeepsInv(events);
    var sys := Run(events);
    assert KeyOk(sys.world, key, PcOf(sys, key), LogOf(sys, key));
    assert key in sys.world.disk.pending ==> PendingOk(sys.world, key);
  }

  /** The provider is called at most once per key, plus once for each call of that key that a crash
      cut short and for each entry that was damaged from outside. */
  lemma ProviderCalledOnce(events: seq<Event>, key: Key)
    ensures var log := LogOf(Run(events), key); log.calls <= 1 + log.crashes + log.damages
  {
    RunKeepsInv(events);
    var sys := Run(events);
    assert KeyOk(sys.world, key, PcOf(sys, key), LogOf(sys, key));
  }

  /** Unless its entry is damaged, every answer ever given for a key is the same record, crashes or
      not: the one in the entry that was written first. */
  lemma AnswersAgree(events: seq<Event>, key: Key, r: int, r': int)
    requires LogOf(Run(events), key).damages == 0
    requires r in LogOf(Run(events), key).answers && r' in LogOf(Run(events), key).answers
    ensures r == r' && Holding(Run(events).world, key, r)
  {
    RunKeepsInv(events);
    var sys := Run(events);
    assert KeyOk(sys.world, key, PcOf(sys, key), LogOf(sys, key));
  }

  // ---------------------------------------------------------------- hits and misses

  /** A call whose miss is counted but which has not returned yet. */
  predicate Settling(pc: Pc) {
    (pc.Promoting? || pc.Releasing? || pc.Dropping?) && pc.next.Complete? && pc.next.called
  }

  function SettlingKeys(sys: Sys): set<Key> {
    set k | k in sys.pcs && Settling(sys.pcs[k])
  }

  /** Without crashes only a publishing call owns a journal. */
  predicate Publishing(pc: Pc) {
    pc.Storing? || ((pc.Counting? || pc.Promoting? || pc.Releasing? || pc.Dropping?) && pc.next.Complete?)
  }

  ghost predicate CrashFree(sys: Sys) {
    sys.losses == 0 ==>
      && (forall k :: (Journaled(sys.world.disk, k) <==> Publishing(PcOf(sys, k))) && NotRepairing(PcOf(sys, k)))
      && (forall k :: PcOf(sys, k).Counting? && k in sys.world.disk.pending ==>
            sys.world.disk.pending[k].publication !in sys.world.history.counted)
      && sys.world.disk.stats.hits + sys.world.disk.stats.misses
         == sys.completed + |SettlingKeys(sys)| + sys.notedHits + sys.world.history.notedMisses
  }

  predicate NotRepairing(pc: Pc) {
    !pc.Discarding? && ((pc.Counting? || pc.Promoting? || pc.Releasing? || pc.Dropping?) ==> pc.next.Complete?)
  }

  lemma SettlingIsAboutPcs(sys: Sys, key: Key)
    ensures key in SettlingKeys(sys) <==> Settling(PcOf(sys, key))
  {
  }

  lemma SettlingChange(before: Sys, after: Sys, key: Key)
    requires forall k :: k != key ==> PcOf(before, k) == PcOf(after, k)
    ensures |SettlingKeys(after)| == |SettlingKeys(before)|
              + (if Settling(PcOf(after, key)) then 1 else 0) - (if Settling(PcOf(before, key)) then 1 else 0)
  {
    var old', new' := SettlingKeys(before), SettlingKeys(after);
    forall k
      ensures k != key ==> (k in old' <==> k in new')
      ensures k == key ==> (k in old' <==> Settling(PcOf(before, key))) && (k in new' <==> Settling(PcOf(after, key)))
    {
      SettlingIsAboutPcs(before, k);
      SettlingIsAboutPcs(after, k);
      if k != key { assert PcOf(before, k) == PcOf(after, k); }
    }
    CardinalityChange(old', new', key);
  }

  lemma CardinalityChange(a: set<Key>, b: set<Key>, key: Key)
    requires forall k :: k != key ==> (k in a <==> k in b)
    ensures |b| == |a| + (if key in b then 1 else 0) - (if key in a then 1 else 0)
  {
    assert a - {key} == b - {key};
    assert key in a ==> a == (a - {key}) + {key};
    assert key in b ==> b == (b - {key}) + {key};
    assert key !in a ==> a == a - {key};
    assert key !in b ==> b == b - {key};
  }

  lemma StepKeepsCrashFree(sys: Sys, key: Key, result: int, minted: Publication)
    requires Inv(sys) && CrashFree(sys) && sys.losses == 0 && !Unlocked(PcOf(sys, key))
    ensures CrashFree(Apply(sys, Step(key, result, minted)))
  {
    var after := Apply(sys, Step(key, result, minted));
    var pc := PcOf(sys, key);
    assert KeyOk(sys.world, key, pc, LogOf(sys, key));
    SettlingChange(sys, after, key);
    assert key in sys.world.disk.pending ==> PendingOk(sys.world, key);
    StepCounts(sys, key, result, minted);
    StepKeepsOwnJournal(sys, key, result, minted);
    forall k | k != key
      ensures (Journaled(after.world.disk, k) <==> Publishing(PcOf(after, k))) && NotRepairing(PcOf(after, k))
      ensures PcOf(after, k).Counting? && k in after.world.disk.pending ==>
                after.world.disk.pending[k].publication !in after.world.history.counted
    {
      AdvanceKeepsOthers(sys.world, key, pc, result, minted, k);
      assert (Journaled(sys.world.disk, k) <==> Publishing(PcOf(sys, k))) && NotRepairing(PcOf(sys, k));
      assert k in sys.world.disk.pending ==> PendingOk(sys.world, k);
      assert key in sys.world.disk.pending ==> PendingOk(sys.world, key);
    }
  }

  lemma StepCounts(sys: Sys, key: Key, result: int, minted: Publication)
    requires KeyOk(sys.world, key, PcOf(sys, key), LogOf(sys, key)) && !Unlocked(PcOf(sys, key)) && NotRepairing(PcOf(sys, key))
    requires key in sys.world.disk.pending ==> PendingOk(sys.world, key)
    requires PcOf(sys, key).Counting? && key in sys.world.disk.pending ==>
               sys.world.disk.pending[key].publication !in sys.world.history.counted
    ensures var pc := PcOf(sys, key);
            var after := Apply(sys, Step(key, result, minted));
            after.world.disk.stats.hits + after.world.disk.stats.misses - after.completed
            == sys.world.disk.stats.hits + sys.world.disk.stats.misses - sys.completed
               + (if Settling(PcOf(after, key)) then 1 else 0) - (if Settling(pc) then 1 else 0)
    ensures Apply(sys, Step(key, result, minted)).world.history.notedMisses == sys.world.history.notedMisses
  {
  }

  lemma StepKeepsOwnJournal(sys: Sys, key: Key, result: int, minted: Publication)
    requires Inv(sys) && CrashFree(sys) && sys.losses == 0 && !Unlocked(PcOf(sys, key))
    ensures var after := Apply(sys, Step(key, result, minted));
            && (Journaled(after.world.disk, key) <==> Publishing(PcOf(after, key))) && NotRepairing(PcOf(after, key))
            && (PcOf(after, key).Counting? && key in after.world.disk.pending ==>
                  after.world.disk.pending[key].publication !in after.world.history.counted)
  {
    var pc := PcOf(sys, key);
    assert KeyOk(sys.world, key, pc, LogOf(sys, key));
    assert NotRepairing(pc) && (Journaled(sys.world.disk, key) <==> Publishing(pc));
    assert key in sys.world.disk.pending ==> PendingOk(sys.world, key) && PublicationOk(sys.world, sys.world.disk.pending[key].publication);
    assert key in sys.world.disk.applied ==> AppliedOk(sys.world, key);
  }

  lemma {:induction false} RunKeepsCrashFree(events: seq<Event>)
    ensures CrashFree(Run(events))
  {
    if events == [] {
      assert SettlingKeys(INITIAL) == {};
    } else {
      var most, event := events[..|events| - 1], events[|events| - 1];
      RunKeepsCrashFree(most);
      RunKeepsInv(most);
      EventKeepsCrashFree(Run(most), event);
    }
  }

  lemma EventKeepsCrashFree(sys: Sys, event: Event)
    requires Inv(sys) && CrashFree(sys)
    ensures CrashFree(Apply(sys, event))
  {
    match event
    case Step(key, result, minted) =>
      if !Unlocked(PcOf(sys, key)) && sys.losses == 0 { StepKeepsCrashFree(sys, key, result, minted); }
    case Start(key, job) => StartKeepsCrashFree(sys, key, job);
    case NoteHit => SettlingChange(sys, Apply(sys, event), 0);
    case NoteMiss => SettlingChange(sys, Apply(sys, event), 0);
    case _ =>
  }

  lemma StartKeepsCrashFree(sys: Sys, key: Key, job: Job)
    requires CrashFree(sys)
    ensures CrashFree(Apply(sys, Start(key, job)))
  {
    SettlingChange(sys, Apply(sys, Start(key, job)), key);
  }

  /** Without crashes and damage, hits plus misses is the number of finished cached calls, once no
      call is between counting its miss and returning. */
  lemma HitsPlusMisses(events: seq<Event>)
    requires Run(events).losses == 0
    requires forall k :: !Settling(PcOf(Run(events), k))
    ensures var sys := Run(events);
            sys.world.disk.stats.hits + sys.world.disk.stats.misses
            == sys.completed + sys.notedHits + sys.world.history.notedMisses
  {
    RunKeepsCrashFree(events);
    var sys := Run(events);
    forall k | k in sys.pcs
      ensures !Settling(sys.pcs[k])
    {
      assert PcOf(sys, k) == sys.pcs[k];
    }
    assert SettlingKeys(sys) == {};
  }
}
