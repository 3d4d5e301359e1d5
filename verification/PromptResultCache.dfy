/** The cache's own methods over its files.  The process dies when `writesLeft` file operations are
    used up, so a contract that speaks of `alive` covers a crash before any of them. */
module PromptResultCacheService {
  import opened PromptCacheFiles

  class PromptResultCache {
    var stats: Stats
    var pending: map<Key, Journal>
    var applied: map<Key, Journal>
    var entries: map<Key, Entry>
    var writesLeft: nat
    ghost var history: History

    constructor (writesLeft: nat)
      ensures Valid() && World() == EMPTY && this.writesLeft == writesLeft
    {
      stats, pending, applied, entries := Stats(0, 0, 0, {}), map[], map[], map[];
      history := EMPTY.history;
      this.writesLeft := writesLeft;
    }

    ghost function World(): World
      reads this
    {
      PromptCacheFiles.World(Disk(stats, pending, applied, entries), history)
    }

    ghost predicate Valid()
      reads this
    {
      AccountingOk(World())
    }

    /** Spend one file operation, or die before it. */
    method Spend() returns (alive: bool)
      modifies this`writesLeft
      ensures alive <==> old(writesLeft) > 0
    {
      alive := writesLeft > 0;
      if alive {
        writesLeft := writesLeft - 1;
      }
    }

    /** `_cleanup_applied_accounting_locked`. */
    method CleanupAppliedAccounting(journal: Journal) returns (alive: bool)
      requires Valid() && journal.key in applied && applied[journal.key] == journal
      modifies this
      ensures Valid()
      ensures World() in {old(World()), Release(old(World()), journal),
                          DropApplied(Release(old(World()), journal), journal.key)}
      ensures alive ==> World() == DropApplied(Release(old(World()), journal), journal.key)
    {
      ghost var start := World();
      if journal.publication in stats.inflight {
        alive := Spend();
        if !alive { return; }
        stats := stats.(inflight := stats.inflight - {journal.publication});
      }
      ReleaseKeeps(start, journal.key);
      assert World() == Release(start, journal);
      alive := Spend();
      if !alive { return; }
      applied := applied - {journal.key};
      DropAppliedKeeps(Release(start, journal), journal.key);
    }

    /** `_finalize_accounting_locked`. */
    method FinalizeAccounting(journal: Journal) returns (alive: bool)
      requires Valid() && journal.key in pending && pending[journal.key] == journal
      requires journal.publication in history.written
      modifies this
      ensures Valid() && entries == old(entries) && history.written == old(history).written
      ensures alive ==> World() == Finalize(old(World()), journal)
    {
      ghost var start := World();
      assert PendingOk(start, journal.key);
      if journal.publication !in stats.inflight {
        alive := Spend();
        if !alive { return; }
        stats := Stats(stats.hits, stats.misses + journal.misses, stats.stores + 1,
                       stats.inflight + {journal.publication});
      }
      history := history.(counted := history.counted + {journal.publication});
      CountKeeps(start, journal.key);
      ghost var counted := World();
      assert counted == Count(start, journal);
      alive := Spend();
      if !alive { return; }
      pending, applied := pending - {journal.key}, applied[journal.key := journal];
      PromoteKeeps(counted, journal.key);
      alive := CleanupAppliedAccounting(journal);
    }

    /** `_reconcile_key_accounting_locked`. */
    method ReconcileKeyAccounting(key: Key) returns (alive: bool, error: Option<CacheError>)
      requires Valid()
      modifies this
      ensures Valid() && error == None && entries == old(entries)
      ensures alive ==> World() == Reconcile(old(World()), key).world && !Journaled(World().disk, key)
      ensures alive ==> history.home == old(history).home
      ensures alive && !Journaled(old(World()).disk, key) ==> stats == old(stats)
    {
      ghost var start := World();
      ReconcileSettles(start, key);
      ReconcileMintsNothing(start, key);
      if key in pending && key in applied {
        return true, Some(BothJournals);
      }
      if key in applied {
        var journal := applied[key];
        assert AppliedOk(start, key);
        if key !in entries { return true, Some(NoPublishedEntry); }
        if entries[key].Corrupt? { return true, Some(UnreadableEntry); }
        if entries[key].publication != journal.publication { return true, Some(PublicationMismatch); }
        alive := CleanupAppliedAccounting(journal);
        return alive, None;
      }
      if key !in pending {
        return true, None;
      }
      var journal := pending[key];
      assert PendingOk(start, key);
      if key !in entries {
        alive := Spend();
        if alive {
          pending := pending - {key};
        }
        return alive, None;
      }
      if entries[key].Corrupt? { return true, Some(UnreadableEntry); }
      if entries[key].publication != journal.publication { return true, Some(PublicationMismatch); }
      alive := FinalizeAccounting(journal);
      return alive, None;
    }

    /** `_publish_entry`: journal first, then the entry, then the counters. */
    method PublishEntry(key: Key, publication: Publication, record: int, misses: nat) returns (alive: bool)
      requires Valid() && !Journaled(World().disk, key) && key !in entries
      requires publication !in history.home && misses <= 1
      modifies this
      ensures Valid()
      ensures entries == old(entries) || entries == old(entries)[key := Entry(publication, record)]
      ensures alive ==> var journal := Journal(key, publication, misses);
                World() == Finalize(WriteEntry(WritePending(old(World()), journal), journal, record), journal)
      ensures alive ==> entries == old(entries)[key := Entry(publication, record)]
      ensures alive ==> stats == old(stats).(misses := old(stats).misses + misses, stores := old(stats).stores + 1)
    {
      ghost var start := World();
      var journal := Journal(key, publication, misses);
      alive := Spend();
      if !alive { return; }
      pending := pending[key := journal];
      history := WritePending(start, journal).history;
      WritePendingKeeps(start, journal);
      ghost var journaled := World();
      assert journaled == WritePending(start, journal);
      alive := Spend();
      if !alive { return; }
      entries := entries[key := Entry(publication, record)];
      history := history.(written := history.written + {publication});
      WriteEntryKeeps(journaled, key, record);
      assert publication !in start.disk.stats.inflight && publication !in start.history.counted;
      alive := FinalizeAccounting(journal);
      assert alive ==> stats.inflight == start.disk.stats.inflight;
    }

    /** `get_result`. */
    method GetResult(key: Key) returns (alive: bool, result: Option<int>, error: Option<CacheError>)
      requires Valid()
      modifies this
      ensures Valid() && entries == old(entries)
      ensures alive ==> (error.Some? <==> key in entries && entries[key].Corrupt?)
      ensures alive && error == None ==> result == if key in entries then Some(entries[key].record) else None
      // Reading counts nothing beyond what reconciling the key settles.
      ensures alive ==> World() == Reconcile(old(World()), key).world
      ensures alive && !Journaled(old(World()).disk, key) ==> stats == old(stats)
    {
      alive, error := ReconcileKeyAccounting(key);
      if !alive || key !in entries { return alive, None, error; }
      if entries[key].Corrupt? { return true, None, Some(UnreadableEntry); }
      return true, Some(entries[key].record), None;
    }

    /** `put`: the first publication of a key wins. */
    method Put(key: Key, record: int, publication: Publication) returns (alive: bool, result: int)
      requires Valid() && publication !in history.home
      modifies this
      ensures Valid()
      ensures alive ==> key in entries && entries[key].Entry? && entries[key].record == result
      ensures alive && key in old(entries) && old(entries)[key].Entry? ==>
                entries == old(entries) && result == old(entries)[key].record
      ensures alive && (key !in old(entries) || old(entries)[key].Corrupt?) ==>
                entries == old(entries)[key := Entry(publication, record)] && result == record
      // Beyond what reconciling the key settles, a put that finds an entry counts nothing, and any other counts
      // one store: never a hit or a miss.
      ensures alive ==>
                var settled := Reconcile(old(World()), key).world.disk.stats;
                stats == if key in old(entries) && old(entries)[key].Entry? then settled
                         else settled.(stores := settled.stores + 1)
      ensures alive && !Journaled(old(World()).disk, key) ==>
                stats == if key in old(entries) && old(entries)[key].Entry? then old(stats)
                         else old(stats).(stores := old(stats).stores + 1)
    {
      var error;
      alive, error := ReconcileKeyAccounting(key);
      if !alive { return false, 0; }
      if key in entries && entries[key].Entry? {
        return true, entries[key].record;
      }
      alive := Replace(key, publication, record, 0);
      return alive, record;
    }

    /** `execute_call`; `produced` is what the provider would answer. */
    method ExecuteCall(key: Key, produced: int, publication: Publication)
      returns (alive: bool, result: int, hit: bool)
      requires Valid() && publication !in history.home
      modifies this
      ensures Valid()
      ensures alive ==> key in entries && entries[key].Entry? && entries[key].record == result
      ensures alive ==> (hit <==> key in old(entries) && old(entries)[key].Entry?)
      ensures alive && hit ==> entries == old(entries) && result == old(entries)[key].record
      ensures alive && !hit ==> entries == old(entries)[key := Entry(publication, produced)] && result == produced
      // Beyond what reconciling the key settles, a hit adds one hit and a miss adds one miss and one store.
      ensures alive ==>
                var settled := Reconcile(old(World()), key).world.disk.stats;
                stats == if hit then settled.(hits := settled.hits + 1)
                         else settled.(misses := settled.misses + 1, stores := settled.stores + 1)
      ensures alive && !Journaled(old(World()).disk, key) ==>
                stats == if hit then old(stats).(hits := old(stats).hits + 1)
                         else old(stats).(misses := old(stats).misses + 1, stores := old(stats).stores + 1)
    {
      var error;
      alive, error := ReconcileKeyAccounting(key);
      if !alive { return false, 0, false; }
      if key in entries && entries[key].Entry? {
        alive := NoteHit();
        return alive, entries[key].record, true;
      }
      alive := Replace(key, publication, produced, 1);
      return alive, produced, false;
    }

    /** The tail of `put` and `execute_call`: drop an unreadable entry, then publish a new one. */
    method Replace(key: Key, publication: Publication, record: int, misses: nat) returns (alive: bool)
      requires Valid() && !Journaled(World().disk, key) && publication !in history.home && misses <= 1
      requires key in entries ==> entries[key].Corrupt?
      modifies this
      ensures Valid()
      ensures alive ==> entries == old(entries)[key := Entry(publication, record)]
      ensures alive ==> stats == old(stats).(misses := old(stats).misses + misses, stores := old(stats).stores + 1)
    {
      if key in entries {
        alive := QuarantineCorruptEntry(key);
        if !alive { return; }
      }
      alive := PublishEntry(key, publication, record, misses);
    }

    /** `note_hit`. */
    method NoteHit() returns (alive: bool)
      requires Valid()
      modifies this`stats, this`writesLeft
      ensures Valid()
      ensures stats == if alive then old(stats).(hits := old(stats).hits + 1) else old(stats)
    {
      NoteKeeps(World(), 1, 0);
      alive := Spend();
      if alive {
        stats := stats.(hits := stats.hits + 1);
      }
    }

    /** `_quarantine_corrupt_entry_locked`. */
    method QuarantineCorruptEntry(key: Key) returns (alive: bool)
      requires Valid() && !Journaled(World().disk, key)
      modifies this
      ensures Valid() && (World() == old(World()) || World() == Quarantine(old(World()), key))
      ensures alive ==> World() == Quarantine(old(World()), key)
      ensures alive ==> entries == old(entries) - {key} && stats == old(stats) && history == old(history)
    {
      ghost var start := World();
      EntryChangeKeeps(start, key, Quarantine(start, key));
      alive := Spend();
      if alive {
        entries := entries - {key};
      }
    }

    /** `counters`: reconcile every journaled key, then read exact counters. */
    method Counters(keys: seq<Key>) returns (alive: bool, read: Stats)
      requires Valid() && forall k :: Journaled(World().disk, k) ==> k in keys
      modifies this
      ensures Valid()
      ensures alive ==> read.inflight == {} && read.hits == old(stats).hits
      ensures alive ==> read.stores == |old(history).written|
      ensures alive ==> read.misses == old(history).notedMisses + |old(history).written * old(history).missed|
    {
      alive := true;
      var i := 0;
      while i < |keys|
        invariant i <= |keys| && Valid() && alive
        invariant history.written == old(history).written && history.missed == old(history).missed
        invariant history.notedMisses == old(history).notedMisses && stats.hits == old(stats).hits
        invariant forall k :: Journaled(World().disk, k) ==> k in keys[i..]
      {
        ghost var before := World();
        ReconcileSettles(before, keys[i]);
        var error;
        alive, error := ReconcileKeyAccounting(keys[i]);
        if !alive { return false, stats; }
        assert forall k :: Journaled(World().disk, k) ==> Journaled(before.disk, k) && k != keys[i];
        i := i + 1;
      }
      assert keys[i..] == [];
      assert forall k :: !Journaled(World().disk, k);
      assert forall k :: k in pending ==> Journaled(World().disk, k);
      assert forall k :: k in applied ==> Journaled(World().disk, k);
      assert pending == map[] && applied == map[];
      ExactWhenSettled(World());
      read := stats;
    }
  }

  /** Reconciling never mints a publication. */
  lemma ReconcileMintsNothing(w: World, key: Key)
    requires AccountingOk(w)
    ensures Reconcile(w, key).Settled? ==> Reconcile(w, key).world.history.home == w.history.home
  {
  }
}
