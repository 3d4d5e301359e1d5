/** The prompt cache's files and the accounting invariant that every single file operation keeps.

    One operation is one atomic write, rename or unlink; a read-modify-write of the stats file runs
    under its lock and is one operation too. */
module PromptCacheFiles {

  type Key = nat
  type Publication = nat

  datatype Option<+T> = None | Some(value: T)

  datatype Stats = Stats(hits: nat, misses: nat, stores: nat, inflight: set<Publication>)

  /** `_AccountingJournal`: one publication of one key; `misses` is 0 or 1. */
  datatype Journal = Journal(key: Key, publication: Publication, misses: nat)

  /** A stored entry, or a file that no longer reads as one; `record` stands for result and provenance. */
  datatype Entry = Entry(publication: Publication, record: int) | Corrupt

  datatype Disk = Disk(
    stats: Stats,
    pending: map<Key, Journal>,
    applied: map<Key, Journal>,
    entries: map<Key, Entry>)

  /** What happened so far: the key of every publication ever journaled, which of them were journaled
      as a miss, which had their entry written, and which were added to the counters. */
  datatype History = History(
    home: map<Publication, Key>,
    missed: set<Publication>,
    written: set<Publication>,
    counted: set<Publication>,
    notedMisses: nat)

  datatype World = World(disk: Disk, history: History)

  const EMPTY: World := World(Disk(Stats(0, 0, 0, {}), map[], map[], map[]), History(map[], {}, {}, {}, 0))

  predicate Journaled(disk: Disk, key: Key) {
    key in disk.pending || key in disk.applied
  }

  predicate HoldsJournal(disk: Disk, key: Key, publication: Publication) {
    || (key in disk.pending && disk.pending[key].publication == publication)
    || (key in disk.applied && disk.applied[key].publication == publication)
  }

  // ---------------------------------------------------------------- the file operations

  function WritePending(w: World, journal: Journal): World {
    World(w.disk.(pending := w.disk.pending[journal.key := journal]),
          w.history.(home := w.history.home[journal.publication := journal.key],
                     missed := if journal.misses == 1 then w.history.missed + {journal.publication} else w.history.missed))
  }

  function WriteEntry(w: World, journal: Journal, record: int): World {
    World(w.disk.(entries := w.disk.entries[journal.key := Entry(journal.publication, record)]),
          w.history.(written := w.history.written + {journal.publication}))
  }

  /** The stats write of `_finalize_accounting_locked`: count the publication unless it is in flight. */
  function CountStats(stats: Stats, journal: Journal): Stats {
    if journal.publication in stats.inflight then stats
    else Stats(stats.hits, stats.misses + journal.misses, stats.stores + 1, stats.inflight + {journal.publication})
  }

  function Count(w: World, journal: Journal): World {
    World(w.disk.(stats := CountStats(w.disk.stats, journal)),
          w.history.(counted := w.history.counted + {journal.publication}))
  }

  function Promote(w: World, journal: Journal): World {
    w.(disk := w.disk.(pending := w.disk.pending - {journal.key}, applied := w.disk.applied[journal.key := journal]))
  }

  function Release(w: World, journal: Journal): World {
    w.(disk := w.disk.(stats := w.disk.stats.(inflight := w.disk.stats.inflight - {journal.publication})))
  }

  function DropApplied(w: World, key: Key): World {
    w.(disk := w.disk.(applied := w.disk.applied - {key}))
  }

  function DropPending(w: World, key: Key): World {
    w.(disk := w.disk.(pending := w.disk.pending - {key}))
  }

  function Quarantine(w: World, key: Key): World {
    w.(disk := w.disk.(entries := w.disk.entries - {key}))
  }

  function Note(w: World, hits: nat, misses: nat): World {
    World(w.disk.(stats := w.disk.stats.(hits := w.disk.stats.hits + hits, misses := w.disk.stats.misses + misses)),
          w.history.(notedMisses := w.history.notedMisses + misses))
  }

  // ---------------------------------------------------------------- the invariant

  /** The pending journal of `key` and the entry agree on whether the publication was written, and on
      whether it was counted. */
  predicate PendingOk(w: World, key: Key)
    requires key in w.disk.pending
  {
    var j := w.disk.pending[key];
    && j.key == key && j.misses <= 1
    && j.publication in w.history.home && w.history.home[j.publication] == key
    && (j.misses == 1 <==> j.publication in w.history.missed)
    && key !in w.disk.applied
    && (if j.publication in w.history.written
        then key in w.disk.entries && w.disk.entries[key].Entry? && w.disk.entries[key].publication == j.publication
        else key !in w.disk.entries)
    && (j.publication in w.history.counted <==> j.publication in w.disk.stats.inflight)
  }

  predicate AppliedOk(w: World, key: Key)
    requires key in w.disk.applied
  {
    var j := w.disk.applied[key];
    && j.key == key && j.misses <= 1
    && j.publication in w.history.home && w.history.home[j.publication] == key
    && (j.misses == 1 <==> j.publication in w.history.missed)
    && key !in w.disk.pending
    && j.publication in w.history.counted
    && key in w.disk.entries && w.disk.entries[key].Entry? && w.disk.entries[key].publication == j.publication
  }

  predicate PublicationOk(w: World, p: Publication)
    requires p in w.history.home
  {
    && (p in w.history.counted ==> p in w.history.written)
    && (p in w.disk.stats.inflight ==> p in w.history.counted && HoldsJournal(w.disk, w.history.home[p], p))
    && (p in w.history.written && p !in w.history.counted ==>
          w.history.home[p] in w.disk.pending && w.disk.pending[w.history.home[p]].publication == p)
  }

  ghost predicate JournalsOk(w: World) {
    && (forall k :: k in w.disk.pending ==> PendingOk(w, k))
    && (forall k :: k in w.disk.applied ==> AppliedOk(w, k))
    && (forall p :: p in w.history.home ==> PublicationOk(w, p))
  }

  predicate CountsOk(w: World) {
    && w.history.missed <= w.history.home.Keys
    && w.history.written <= w.history.home.Keys
    && w.history.counted <= w.history.home.Keys
    && w.disk.stats.inflight <= w.history.home.Keys
    && w.disk.stats.stores == |w.history.counted|
    && w.disk.stats.misses == w.history.notedMisses + |w.history.counted * w.history.missed|
  }

  ghost predicate AccountingOk(w: World) {
    JournalsOk(w) && CountsOk(w)
  }

  // ---------------------------------------------------------------- every operation keeps it

  lemma WritePendingKeeps(w: World, journal: Journal)
    requires AccountingOk(w) && !Journaled(w.disk, journal.key) && journal.key !in w.disk.entries
    requires journal.publication !in w.history.home && journal.misses <= 1
    ensures AccountingOk(WritePending(w, journal))
  {
    PendingKeepsJournals(w, journal);
    var after := WritePending(w, journal);
    assert after.history.counted * after.history.missed == w.history.counted * w.history.missed;
  }

  lemma PendingKeepsJournals(w: World, journal: Journal)
    requires JournalsOk(w) && !Journaled(w.disk, journal.key) && journal.key !in w.disk.entries
    requires journal.publication !in w.history.home && journal.misses <= 1
    requires w.history.missed <= w.history.home.Keys && w.history.written <= w.history.home.Keys
    requires w.history.counted <= w.history.home.Keys && w.disk.stats.inflight <= w.history.home.Keys
    ensures JournalsOk(WritePending(w, journal))
  {
  }

  lemma WriteEntryKeeps(w: World, key: Key, record: int)
    requires AccountingOk(w) && key in w.disk.pending && key !in w.disk.entries
    ensures AccountingOk(WriteEntry(w, w.disk.pending[key], record))
  {
    var journal := w.disk.pending[key];
    assert PendingOk(w, key) && PublicationOk(w, journal.publication);
  }

  lemma CountKeeps(w: World, key: Key)
    requires AccountingOk(w) && key in w.disk.pending && w.disk.pending[key].publication in w.history.written
    ensures AccountingOk(Count(w, w.disk.pending[key]))
  {
    assert PendingOk(w, key);
    CountKeepsJournals(w, key);
    CountKeepsCounts(w, w.disk.pending[key]);
  }

  lemma CountKeepsJournals(w: World, key: Key)
    requires JournalsOk(w) && key in w.disk.pending && w.disk.pending[key].publication in w.history.written
    ensures JournalsOk(Count(w, w.disk.pending[key]))
  {
    assert PendingOk(w, key) && PublicationOk(w, w.disk.pending[key].publication);
  }

  lemma CountKeepsCounts(w: World, journal: Journal)
    requires CountsOk(w) && journal.publication in w.history.home && journal.misses <= 1
    requires journal.misses == 1 <==> journal.publication in w.history.missed
    requires journal.publication in w.history.counted <==> journal.publication in w.disk.stats.inflight
    ensures CountsOk(Count(w, journal))
  {
    if journal.publication in w.history.counted {
      assert Count(w, journal).history.counted == w.history.counted;
    } else {
      CountOneMore(w.history.counted, w.history.missed, journal.publication);
    }
  }

  lemma CountOneMore(counted: set<Publication>, missed: set<Publication>, p: Publication)
    requires p !in counted
    ensures |counted + {p}| == |counted| + 1
    ensures |(counted + {p}) * missed| == |counted * missed| + (if p in missed then 1 else 0)
  {
    assert (counted + {p}) * missed == (counted * missed) + (if p in missed then {p} else {});
  }

  lemma PromoteKeeps(w: World, key: Key)
    requires AccountingOk(w) && key in w.disk.pending && w.disk.pending[key].publication in w.history.counted
    ensures AccountingOk(Promote(w, w.disk.pending[key]))
  {
    var journal := w.disk.pending[key];
    assert PendingOk(w, key) && PublicationOk(w, journal.publication);
  }

  lemma ReleaseKeeps(w: World, key: Key)
    requires AccountingOk(w) && key in w.disk.applied
    ensures AccountingOk(Release(w, w.disk.applied[key]))
  {
    var journal := w.disk.applied[key];
    assert AppliedOk(w, key);
  }

  lemma DropAppliedKeeps(w: World, key: Key)
    requires AccountingOk(w) && key in w.disk.applied
    requires w.disk.applied[key].publication !in w.disk.stats.inflight
    ensures AccountingOk(DropApplied(w, key))
  {
    assert AppliedOk(w, key);
  }

  lemma DropPendingKeeps(w: World, key: Key)
    requires AccountingOk(w) && key in w.disk.pending && key !in w.disk.entries
    ensures AccountingOk(DropPending(w, key))
  {
    assert PendingOk(w, key) && PublicationOk(w, w.disk.pending[key].publication);
  }

  /** Any change of the entry of a key without a journal: quarantine, or damage from outside. */
  lemma EntryChangeKeeps(w: World, key: Key, after: World)
    requires AccountingOk(w) && !Journaled(w.disk, key)
    requires after.history == w.history && after.disk.stats == w.disk.stats
    requires after.disk.pending == w.disk.pending && after.disk.applied == w.disk.applied
    requires forall k :: k != key ==> (k in after.disk.entries <==> k in w.disk.entries)
    requires forall k :: k != key && k in w.disk.entries ==> after.disk.entries[k] == w.disk.entries[k]
    ensures AccountingOk(after)
  {
  }

  lemma NoteKeeps(w: World, hits: nat, misses: nat)
    requires AccountingOk(w)
    ensures AccountingOk(Note(w, hits, misses))
  {
  }

  /** Once no journal is left the counters are exact: one store for each entry ever written, one miss
      for each written entry that was journaled as one, and nothing in flight. */
  lemma ExactWhenSettled(w: World)
    requires AccountingOk(w) && w.disk.pending == map[] && w.disk.applied == map[]
    ensures w.disk.stats.stores == |w.history.written|
    ensures w.disk.stats.misses == w.history.notedMisses + |w.history.written * w.history.missed|
    ensures w.disk.stats.inflight == {}
  {
    forall p | p in w.history.written
      ensures p in w.history.counted
    {
      assert PublicationOk(w, p);
    }
    forall p | p in w.history.counted
      ensures p in w.history.written
    {
      assert PublicationOk(w, p);
    }
    assert w.history.written == w.history.counted;
    forall p | p in w.history.home
      ensures p !in w.disk.stats.inflight
    {
      assert PublicationOk(w, p);
    }
  }

  // ---------------------------------------------------------------- reconciliation as a whole

  datatype CacheError = BothJournals | NoPublishedEntry | PublicationMismatch | UnreadableEntry

  datatype Reconciled = Settled(world: World) | Refused(error: CacheError)

  /** `_finalize_accounting_locked` followed by the clean-up, without a crash. */
  function Finalize(w: World, journal: Journal): World {
    DropApplied(Release(Promote(Count(w, journal), journal), journal), journal.key)
  }

  /** `_reconcile_key_accounting_locked` without a crash. */
  function Reconcile(w: World, key: Key): Reconciled {
    if key in w.disk.pending && key in w.disk.applied then Refused(BothJournals)
    else if key in w.disk.applied then
      var journal := w.disk.applied[key];
      if key !in w.disk.entries then Refused(NoPublishedEntry)
      else if w.disk.entries[key].Corrupt? then Refused(UnreadableEntry)
      else if w.disk.entries[key].publication != journal.publication then Refused(PublicationMismatch)
      else Settled(DropApplied(Release(w, journal), journal.key))
    else if key !in w.disk.pending then Settled(w)
    else
      var journal := w.disk.pending[key];
      if key !in w.disk.entries then Settled(DropPending(w, key))
      else if w.disk.entries[key].Corrupt? then Refused(UnreadableEntry)
      else if w.disk.entries[key].publication != journal.publication then Refused(PublicationMismatch)
      else Settled(Finalize(w, journal))
  }

  function ReconcileAll(w: World, keys: seq<Key>): Reconciled
    decreases |keys|
  {
    if keys == [] then Settled(w)
    else
      var first := Reconcile(w, keys[0]);
      if first.Refused? then first else ReconcileAll(first.world, keys[1..])
  }

  lemma FinalizeKeeps(w: World, key: Key)
    requires AccountingOk(w) && key in w.disk.pending && w.disk.pending[key].publication in w.history.written
    ensures var after := Finalize(w, w.disk.pending[key]);
            && AccountingOk(after)
            && after.disk.pending == w.disk.pending - {key} && after.disk.applied == w.disk.applied
            && after.disk.entries == w.disk.entries
            && after.history.written == w.history.written && after.history.missed == w.history.missed
            && after.history.notedMisses == w.history.notedMisses && after.disk.stats.hits == w.disk.stats.hits
  {
    assert PendingOk(w, key);
    FinalizeStaysExact(w, key);
    assert (w.disk.applied[key := w.disk.pending[key]]) - {key} == w.disk.applied;
  }

  lemma FinalizeStaysExact(w: World, key: Key)
    requires AccountingOk(w) && key in w.disk.pending && w.disk.pending[key].publication in w.history.written
    ensures AccountingOk(Finalize(w, w.disk.pending[key]))
  {
    var journal := w.disk.pending[key];
    assert PendingOk(w, key);
    CountKeeps(w, key);
    PromoteKeeps(Count(w, journal), key);
    SettleKeeps(Promote(Count(w, journal), journal), key);
  }

  /** Releasing an applied journal and dropping it. */
  lemma SettleKeeps(w: World, key: Key)
    requires AccountingOk(w) && key in w.disk.applied
    ensures AccountingOk(DropApplied(Release(w, w.disk.applied[key]), key))
  {
    assert AppliedOk(w, key);
    ReleaseKeeps(w, key);
    DropAppliedKeeps(Release(w, w.disk.applied[key]), key);
  }

  /** Reconciling one key always succeeds, settles that key and leaves every other journal alone. */
  lemma ReconcileSettles(w: World, key: Key)
    requires AccountingOk(w)
    ensures var r := Reconcile(w, key);
            && r.Settled? && AccountingOk(r.world)
            && r.world.disk.pending == w.disk.pending - {key} && r.world.disk.applied == w.disk.applied - {key}
            && r.world.disk.entries == w.disk.entries
            && r.world.history.written == w.history.written && r.world.history.missed == w.history.missed
            && r.world.history.notedMisses == w.history.notedMisses && r.world.disk.stats.hits == w.disk.stats.hits
  {
    if key in w.disk.applied {
      AppliedSettles(w, key);
    } else if key in w.disk.pending {
      PendingSettles(w, key);
    } else {
      assert w.disk.applied - {key} == w.disk.applied && w.disk.pending - {key} == w.disk.pending;
    }
  }

  /** A pending journal is finalized when its entry is there and dropped when it is not. */
  lemma PendingIsReadable(w: World, key: Key)
    requires AccountingOk(w) && key in w.disk.pending
    ensures Reconcile(w, key) == Settled(if key in w.disk.entries then Finalize(w, w.disk.pending[key]) else DropPending(w, key))
    ensures key in w.disk.entries ==> w.disk.pending[key].publication in w.history.written
    ensures w.disk.applied - {key} == w.disk.applied
  {
    assert PendingOk(w, key);
  }

  lemma PendingSettles(w: World, key: Key)
    requires AccountingOk(w) && key in w.disk.pending
    ensures var r := Reconcile(w, key);
            && r == Settled(if key in w.disk.entries then Finalize(w, w.disk.pending[key]) else DropPending(w, key))
            && AccountingOk(r.world)
            && r.world.disk.pending == w.disk.pending - {key} && r.world.disk.applied == w.disk.applied
            && w.disk.applied - {key} == w.disk.applied
  {
    PendingIsReadable(w, key);
    if key in w.disk.entries {
      FinalizeKeeps(w, key);
    } else {
      DropPendingKeeps(w, key);
    }
  }

  lemma AppliedSettles(w: World, key: Key)
    requires AccountingOk(w) && key in w.disk.applied
    ensures Reconcile(w, key) == Settled(DropApplied(Release(w, w.disk.applied[key]), key))
    ensures AccountingOk(Reconcile(w, key).world) && w.disk.pending - {key} == w.disk.pending
  {
    SettleKeeps(w, key);
    assert AppliedOk(w, key);
  }

  /** Exactly once: from any state the crashes may have left, reconciling every journaled key, in any
      order, succeeds and makes the counters exact. */
  lemma {:induction false} ReconcileAllIsExact(w: World, keys: seq<Key>)
    requires AccountingOk(w)
    requires forall k :: Journaled(w.disk, k) ==> k in keys
    ensures var r := ReconcileAll(w, keys);
            && r.Settled?
            && r.world.disk.stats.stores == |w.history.written|
            && r.world.disk.stats.misses == w.history.notedMisses + |w.history.written * w.history.missed|
            && r.world.disk.stats.inflight == {}
            && r.world.disk.pending == map[] && r.world.disk.applied == map[]
            && r.world.disk.entries == w.disk.entries
    decreases |keys|
  {
    if keys == [] {
      assert forall k :: k in w.disk.pending ==> Journaled(w.disk, k);
      assert forall k :: k in w.disk.applied ==> Journaled(w.disk, k);
      assert w.disk.pending == map[] && w.disk.applied == map[];
      ExactWhenSettled(w);
    } else {
      ReconcileSettles(w, keys[0]);
      var next := Reconcile(w, keys[0]).world;
      forall k | Journaled(next.disk, k)
        ensures k in keys[1..]
      {
        assert Journaled(w.disk, k) && k != keys[0];
      }
      ReconcileAllIsExact(next, keys[1..]);
    }
  }
}
