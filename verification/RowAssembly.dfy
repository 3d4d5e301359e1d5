/** Reassembling an evaluation from the slices its rows were evaluated in. */
module RowAssembly {
  import opened NestedMean
  import LeaseText

  /** What all slices of one evaluation must agree on. */
  datatype Header = Header(candidate: nat, graph: nat, metadata: nat, role: nat, aggregateName: string)

  /** One evaluated row: which cell it was run for, and the row and trace it recorded. */
  datatype Slice = Slice(header: Header, taskId: string, seed: nat, rowTaskId: string, output: nat, value: RowValue)

  /** The sampled tasks, their hashes in the same order, and the seeds each is run with. */
  datatype Sampling = Sampling(ids: seq<string>, hashes: seq<string>, seeds: nat, policy: Policy) {
    predicate Paired() { |ids| == |hashes| }
  }

  datatype Row = Row(taskId: string, taskHash: string, task: nat, seed: nat, output: nat, value: RowValue)

  datatype Key = Key(task: nat, seed: nat)

  function KeyOf(row: Row): Key { Key(row.task, row.seed) }

  // ---------------------------------------------------------------- the row validator

  /** The position of a planned cell, or nothing for a cell outside the plan. */
  function Ordinal(key: Key, tasks: nat, seeds: nat): Option<nat> {
    if key.task < tasks && key.seed < seeds then Some(key.task * seeds + key.seed) else None
  }

  lemma OrdinalInjective(a: Key, b: Key, tasks: nat, seeds: nat)
    requires Ordinal(a, tasks, seeds).Some? && Ordinal(a, tasks, seeds) == Ordinal(b, tasks, seeds)
    ensures a == b
  {
    if a.task < b.task {
      SmallerTask(a, b, seeds);
    } else if b.task < a.task {
      SmallerTask(b, a, seeds);
    }
  }

  lemma SmallerTask(a: Key, b: Key, seeds: nat)
    requires a.task < b.task && a.seed < seeds && b.seed < seeds
    ensures a.task * seeds + a.seed < b.task * seeds + b.seed
  {
    assert (b.task - a.task - 1) * seeds >= 0;
    assert b.task * seeds == a.task * seeds + seeds + (b.task - a.task - 1) * seeds;
  }

  lemma OrdinalBound(key: Key, tasks: nat, seeds: nat)
    requires key.task < tasks && key.seed < seeds
    ensures key.task * seeds + key.seed < tasks * seeds
  {
    assert (tasks - key.task - 1) * seeds >= 0;
    assert tasks * seeds == key.task * seeds + seeds + (tasks - key.task - 1) * seeds;
  }

  lemma {:induction false} OrdinalCovers(k: nat, tasks: nat, seeds: nat) returns (key: Key)
    requires k < tasks * seeds
    ensures Ordinal(key, tasks, seeds) == Some(k)
  {
    assert tasks * seeds == (tasks - 1) * seeds + seeds;
    if k < (tasks - 1) * seeds {
      key := OrdinalCovers(k, tasks - 1, seeds);
    } else {
      key := Key(tasks - 1, k - (tasks - 1) * seeds);
    }
  }

  function Planned(tasks: nat, seeds: nat): set<Key> {
    set t: nat, s: nat | t < tasks && s < seeds :: Key(t, s)
  }

  /** One task hash names one task id and the other way round. */
  predicate NamesAgree(rows: seq<Row>) {
    forall i, j :: 0 <= i < |rows| && 0 <= j < |rows| ==> (rows[i].taskHash == rows[j].taskHash <==> rows[i].taskId == rows[j].taskId)
  }

  /** Exact row-major order: row k is the k-th planned cell. */
  predicate RowMajor(rows: seq<Row>, tasks: nat, seeds: nat) {
    |rows| == tasks * seeds && forall k :: 0 <= k < |rows| ==> Ordinal(KeyOf(rows[k]), tasks, seeds) == Some(k)
  }

  /** Nothing would be left of the name by `str.strip`. */
  predicate Blank(name: string) {
    forall i :: 0 <= i < |name| ==> LeaseText.Space(name[i] as int)
  }

  predicate NoneBlank(names: seq<string>) {
    names != [] ==> !Blank(names[0]) && NoneBlank(names[1..])
  }

  predicate HashesOk(hashes: seq<string>) {
    && hashes != [] && NoneBlank(hashes)
    && forall i, j :: 0 <= i < j < |hashes| ==> hashes[i] != hashes[j]
  }

  predicate RecordValid(rows: seq<Row>, hashes: seq<string>, seeds: nat) {
    seeds >= 1 && HashesOk(hashes) && NamesAgree(rows) && RowMajor(rows, |hashes|, seeds)
  }

  /** The ordinals seen so far, in order. */
  ghost predicate Increasing(ordinals: seq<nat>) {
    forall i, j :: 0 <= i < j < |ordinals| ==> ordinals[i] < ordinals[j]
  }

  /** Strictly increasing ordinals that cover 0 .. n-1 are 0 .. n-1. */
  lemma {:induction false} CoveringIsExact(ordinals: seq<nat>, n: nat, k: nat)
    requires Increasing(ordinals)
    requires forall i :: 0 <= i < |ordinals| ==> ordinals[i] < n
    requires forall v :: 0 <= v < n ==> v in ordinals
    requires k < |ordinals|
    ensures ordinals[k] == k
  {
    if k > 0 {
      CoveringIsExact(ordinals, n, k - 1);
    }
    assert k <= ordinals[k] < n;
    assert k in ordinals;
    var j :| 0 <= j < |ordinals| && ordinals[j] == k;
  }

  lemma CoveringLength(ordinals: seq<nat>, n: nat)
    requires Increasing(ordinals)
    requires forall i :: 0 <= i < |ordinals| ==> ordinals[i] < n
    requires forall v :: 0 <= v < n ==> v in ordinals
    ensures |ordinals| == n
  {
    forall k | 0 <= k < |ordinals|
      ensures ordinals[k] == k
    {
      CoveringIsExact(ordinals, n, k);
    }
    if |ordinals| > 0 {
      assert ordinals[|ordinals| - 1] < n;
    }
    if n > 0 {
      assert n - 1 in ordinals;
    }
  }

  function IdOf(rows: seq<Row>): map<string, string> {
    if rows == [] then map[] else IdOf(rows[..|rows| - 1])[rows[|rows| - 1].taskHash := rows[|rows| - 1].taskId]
  }

  function HashOfId(rows: seq<Row>): map<string, string> {
    if rows == [] then map[] else HashOfId(rows[..|rows| - 1])[rows[|rows| - 1].taskId := rows[|rows| - 1].taskHash]
  }

  predicate NameClash(row: Row, idOf: map<string, string>, hashOf: map<string, string>) {
    || (row.taskHash in idOf && idOf[row.taskHash] != row.taskId)
    || (row.taskId in hashOf && hashOf[row.taskId] != row.taskHash)
  }

  /** No row clashes with the names of the rows before it. */
  predicate NamesScan(rows: seq<Row>) {
    rows == [] ||
    (NamesScan(rows[..|rows| - 1]) && !NameClash(rows[|rows| - 1], IdOf(rows[..|rows| - 1]), HashOfId(rows[..|rows| - 1])))
  }

  lemma {:induction false} NamesKnown(rows: seq<Row>, hash: string, id: string)
    ensures hash in IdOf(rows) ==> exists j :: 0 <= j < |rows| && rows[j].taskHash == hash && rows[j].taskId == IdOf(rows)[hash]
    ensures id in HashOfId(rows) ==> exists j :: 0 <= j < |rows| && rows[j].taskId == id && rows[j].taskHash == HashOfId(rows)[id]
    ensures forall j :: 0 <= j < |rows| ==> rows[j].taskHash in IdOf(rows) && rows[j].taskId in HashOfId(rows)
  {
    if rows != [] {
      NamesKnown(rows[..|rows| - 1], hash, id);
    }
  }

  lemma {:induction false} NamesScanIff(rows: seq<Row>)
    ensures NamesScan(rows) <==> NamesAgree(rows)
  {
    if rows != [] {
      var init, last := rows[..|rows| - 1], rows[|rows| - 1];
      NamesScanIff(init);
      NamesKnown(init, last.taskHash, last.taskId);
      if NamesScan(rows) {
        forall j | 0 <= j < |init|
          ensures rows[j].taskHash == last.taskHash <==> rows[j].taskId == last.taskId
        {
          NoClashAgrees(init, last, j);
        }
      }
      NamesAgreePrefix(rows, |init|);
    }
  }

  lemma NamesAgreePrefix(rows: seq<Row>, i: nat)
    requires i <= |rows|
    ensures NamesAgree(rows) ==> NamesAgree(rows[..i])
  {
  }

  lemma NoClashAgrees(init: seq<Row>, last: Row, j: nat)
    requires NamesAgree(init) && j < |init| && !NameClash(last, IdOf(init), HashOfId(init))
    ensures init[j].taskHash == last.taskHash <==> init[j].taskId == last.taskId
  {
    NamesKnown(init, last.taskHash, last.taskId);
  }

  function KeySet(rows: seq<Row>): set<Key> {
    if rows == [] then {} else KeySet(rows[..|rows| - 1]) + {KeyOf(rows[|rows| - 1])}
  }

  function PriorOf(rows: seq<Row>, tasks: nat, seeds: nat): int {
    if rows == [] then -1
    else
      var last := Ordinal(KeyOf(rows[|rows| - 1]), tasks, seeds);
      if last.Some? then last.value else -1
  }

  /** Every row has a new key inside the plan, behind the row before it. */
  predicate KeysScan(rows: seq<Row>, tasks: nat, seeds: nat) {
    rows == [] ||
    var init, key := rows[..|rows| - 1], KeyOf(rows[|rows| - 1]);
    && KeysScan(init, tasks, seeds) && key !in KeySet(init)
    && Ordinal(key, tasks, seeds).Some? && Ordinal(key, tasks, seeds).value > PriorOf(init, tasks, seeds)
  }

  function Ordinals(rows: seq<Row>, tasks: nat, seeds: nat): seq<nat> {
    seq(|rows|, i requires 0 <= i < |rows| =>
      var o := Ordinal(KeyOf(rows[i]), tasks, seeds); if o.Some? then o.value else 0)
  }

  lemma {:induction false} KeySetIs(rows: seq<Row>, key: Key)
    ensures key in KeySet(rows) <==> exists j :: 0 <= j < |rows| && KeyOf(rows[j]) == key
  {
    if rows != [] {
      KeySetIs(rows[..|rows| - 1], key);
    }
  }

  lemma {:induction false} ScanIncreases(rows: seq<Row>, tasks: nat, seeds: nat)
    requires KeysScan(rows, tasks, seeds)
    ensures Increasing(Ordinals(rows, tasks, seeds))
    ensures forall j :: 0 <= j < |rows| ==> Ordinal(KeyOf(rows[j]), tasks, seeds).Some?
  {
    if rows != [] {
      var init := rows[..|rows| - 1];
      ScanIncreases(init, tasks, seeds);
      var next := Ordinal(KeyOf(rows[|rows| - 1]), tasks, seeds).value;
      assert Ordinals(rows, tasks, seeds) == Ordinals(init, tasks, seeds) + [next];
      assert init != [] ==> PriorOf(init, tasks, seeds) == Ordinals(init, tasks, seeds)[|init| - 1];
      IncreasingAppend(Ordinals(init, tasks, seeds), next);
    }
  }

  lemma IncreasingAppend(ordinals: seq<nat>, next: nat)
    requires Increasing(ordinals) && (ordinals != [] ==> ordinals[|ordinals| - 1] < next)
    ensures Increasing(ordinals + [next])
  {
  }

  lemma {:induction false} RowMajorScans(rows: seq<Row>, tasks: nat, seeds: nat, i: nat)
    requires RowMajor(rows, tasks, seeds) && i <= |rows|
    ensures KeysScan(rows[..i], tasks, seeds)
  {
    if i > 0 {
      RowMajorScans(rows, tasks, seeds, i - 1);
      assert rows[..i][..i - 1] == rows[..i - 1];
      KeySetIs(rows[..i - 1], KeyOf(rows[i - 1]));
    }
  }

  predicate CoversPlan(keys: set<Key>, tasks: nat, seeds: nat) {
    forall t: nat, s: nat :: t < tasks && s < seeds ==> Key(t, s) in keys
  }

  /** Scanned rows that cover the plan are in exact row-major order, and such rows cover the plan. */
  lemma CoverIff(rows: seq<Row>, tasks: nat, seeds: nat)
    requires KeysScan(rows, tasks, seeds)
    ensures KeySet(rows) == Planned(tasks, seeds) <==> RowMajor(rows, tasks, seeds)
  {
    PlannedIff(KeySet(rows), tasks, seeds);
    if KeySet(rows) == Planned(tasks, seeds) {
      CoverIsRowMajor(rows, tasks, seeds);
    }
    if RowMajor(rows, tasks, seeds) {
      forall key: Key
        ensures key in KeySet(rows) <==> key.task < tasks && key.seed < seeds
      {
        RowMajorKey(rows, tasks, seeds, key);
      }
    }
  }

  lemma PlannedIff(keys: set<Key>, tasks: nat, seeds: nat)
    ensures keys == Planned(tasks, seeds) <==> forall key: Key :: key in keys <==> key.task < tasks && key.seed < seeds
    ensures keys == Planned(tasks, seeds) ==> CoversPlan(keys, tasks, seeds)
  {
    forall key: Key
      ensures key in Planned(tasks, seeds) <==> key.task < tasks && key.seed < seeds
    {
      assert key == Key(key.task, key.seed);
    }
  }

  lemma RowMajorKey(rows: seq<Row>, tasks: nat, seeds: nat, key: Key)
    requires RowMajor(rows, tasks, seeds)
    ensures key in KeySet(rows) <==> key.task < tasks && key.seed < seeds
  {
    RowMajorHas(rows, tasks, seeds, key);
    if key in KeySet(rows) {
      RowMajorOnly(rows, tasks, seeds, key);
    }
  }

  lemma CoverIsRowMajor(rows: seq<Row>, tasks: nat, seeds: nat)
    requires KeysScan(rows, tasks, seeds) && CoversPlan(KeySet(rows), tasks, seeds)
    ensures RowMajor(rows, tasks, seeds)
  {
    ScanIncreases(rows, tasks, seeds);
    ScanBounds(rows, tasks, seeds);
    var n := tasks * seeds;
    forall v: nat | v < n
      ensures v in Ordinals(rows, tasks, seeds)
    {
      OrdinalSeen(rows, tasks, seeds, v);
    }
    CoveringAll(Ordinals(rows, tasks, seeds), n);
    forall k | 0 <= k < |rows|
      ensures Ordinal(KeyOf(rows[k]), tasks, seeds) == Some(k)
    {
      assert Ordinals(rows, tasks, seeds)[k] == k;
    }
  }

  lemma ScanBounds(rows: seq<Row>, tasks: nat, seeds: nat)
    requires forall j :: 0 <= j < |rows| ==> Ordinal(KeyOf(rows[j]), tasks, seeds).Some?
    ensures forall j :: 0 <= j < |rows| ==> Ordinals(rows, tasks, seeds)[j] < tasks * seeds
  {
    forall j | 0 <= j < |rows|
      ensures Ordinals(rows, tasks, seeds)[j] < tasks * seeds
    {
      OrdinalBound(KeyOf(rows[j]), tasks, seeds);
    }
  }

  lemma CoveringAll(ordinals: seq<nat>, n: nat)
    requires Increasing(ordinals)
    requires forall i :: 0 <= i < |ordinals| ==> ordinals[i] < n
    requires forall v: nat :: v < n ==> v in ordinals
    ensures |ordinals| == n && forall k :: 0 <= k < n ==> ordinals[k] == k
  {
    CoveringLength(ordinals, n);
    forall k | 0 <= k < |ordinals|
      ensures ordinals[k] == k
    {
      CoveringIsExact(ordinals, n, k);
    }
  }

  lemma OrdinalSeen(rows: seq<Row>, tasks: nat, seeds: nat, v: nat)
    requires CoversPlan(KeySet(rows), tasks, seeds) && v < tasks * seeds
    ensures v in Ordinals(rows, tasks, seeds)
  {
    var key := OrdinalCovers(v, tasks, seeds);
    assert Key(key.task, key.seed) in KeySet(rows);
    KeySetIs(rows, key);
    var j :| 0 <= j < |rows| && KeyOf(rows[j]) == key;
    assert Ordinals(rows, tasks, seeds)[j] == v;
  }

  lemma RowMajorHas(rows: seq<Row>, tasks: nat, seeds: nat, key: Key)
    requires RowMajor(rows, tasks, seeds)
    ensures key.task < tasks && key.seed < seeds ==>
              && key in KeySet(rows)
              && Ordinal(key, tasks, seeds).value < |rows|
              && KeyOf(rows[Ordinal(key, tasks, seeds).value]) == key
  {
    if key.task < tasks && key.seed < seeds {
      OrdinalBound(key, tasks, seeds);
      KeyAtOrdinal(rows, tasks, seeds, key, Ordinal(key, tasks, seeds).value);
      KeySetIs(rows, key);
    }
  }

  lemma RowMajorOnly(rows: seq<Row>, tasks: nat, seeds: nat, key: Key)
    requires RowMajor(rows, tasks, seeds) && key in KeySet(rows)
    ensures key.task < tasks && key.seed < seeds
  {
    KeySetIs(rows, key);
    var j :| 0 <= j < |rows| && KeyOf(rows[j]) == key;
    assert Ordinal(key, tasks, seeds) == Some(j);
  }

  lemma KeyAtOrdinal(rows: seq<Row>, tasks: nat, seeds: nat, key: Key, k: nat)
    requires RowMajor(rows, tasks, seeds) && Ordinal(key, tasks, seeds) == Some(k) && k < |rows|
    ensures KeyOf(rows[k]) == key
  {
    OrdinalInjective(key, KeyOf(rows[k]), tasks, seeds);
  }

  /** The loop of the record validators: unique keys inside the plan, strictly increasing ordinals, full cover.
      It accepts exactly the rows in exact row-major order. */
  method ValidateRows(rows: seq<Row>, hashes: seq<string>, seeds: nat) returns (valid: bool)
    ensures valid <==> RecordValid(rows, hashes, seeds)
  {
    if seeds < 1 || !HashesOk(hashes) { return false; }
    var idOf: map<string, string> := map[];
    var hashOf: map<string, string> := map[];
    var seen: set<Key> := {};
    var prior: int := -1;
    var i := 0;
    while i < |rows|
      invariant i <= |rows| && NamesScan(rows[..i]) && KeysScan(rows[..i], |hashes|, seeds)
      invariant idOf == IdOf(rows[..i]) && hashOf == HashOfId(rows[..i])
      invariant seen == KeySet(rows[..i]) && prior == PriorOf(rows[..i], |hashes|, seeds)
    {
      var row := rows[i];
      assert rows[..i + 1][..i] == rows[..i];
      if NameClash(row, idOf, hashOf) {
        NamesPrefix(rows, i + 1);
        return false;
      }
      idOf, hashOf := idOf[row.taskHash := row.taskId], hashOf[row.taskId := row.taskHash];
      var key := KeyOf(row);
      var ordinal := Ordinal(key, |hashes|, seeds);
      if key in seen || ordinal.None? || ordinal.value <= prior {
        KeysPrefix(rows, |hashes|, seeds, i + 1);
        return false;
      }
      seen := seen + {key};
      prior := ordinal.value;
      i := i + 1;
    }
    assert rows[..|rows|] == rows;
    NamesScanIff(rows);
    CoverIff(rows, |hashes|, seeds);
    return seen == Planned(|hashes|, seeds);
  }

  lemma NamesPrefix(rows: seq<Row>, i: nat)
    requires i <= |rows| && !NamesScan(rows[..i])
    ensures !NamesAgree(rows)
  {
    NamesScanIff(rows[..i]);
    NamesAgreePrefix(rows, i);
  }

  lemma KeysPrefix(rows: seq<Row>, tasks: nat, seeds: nat, i: nat)
    requires i <= |rows| && !KeysScan(rows[..i], tasks, seeds)
    ensures !RowMajor(rows, tasks, seeds)
  {
    if RowMajor(rows, tasks, seeds) {
      RowMajorScans(rows, tasks, seeds, i);
    }
  }

  // ---------------------------------------------------------------- sorting

  predicate Before(a: Row, b: Row) {
    a.task < b.task || (a.task == b.task && a.seed < b.seed)
  }

  predicate Ordered(rows: seq<Row>) {
    forall i, j :: 0 <= i < j < |rows| ==> !Before(rows[j], rows[i])
  }

  function Insert(row: Row, sorted: seq<Row>): (r: seq<Row>)
    ensures multiset(r) == multiset([row]) + multiset(sorted)
  {
    if sorted == [] then [row]
    else if Before(row, sorted[0]) then [row] + sorted
    else
      assert sorted == [sorted[0]] + sorted[1..];
      [sorted[0]] + Insert(row, sorted[1..])
  }

  lemma {:induction false} InsertOrdered(row: Row, sorted: seq<Row>)
    requires Ordered(sorted)
    ensures Ordered(Insert(row, sorted))
  {
    if sorted != [] && !Before(row, sorted[0]) {
      var rest := Insert(row, sorted[1..]);
      InsertOrdered(row, sorted[1..]);
      forall j | 0 <= j < |rest|
        ensures !Before(rest[j], sorted[0])
      {
        assert rest[j] in multiset(rest);
        assert rest[j] == row || rest[j] in sorted[1..];
      }
    }
  }

  /** Rows sorted by task index and seed. */
  function Sort(rows: seq<Row>): (r: seq<Row>)
    ensures Ordered(r) && multiset(r) == multiset(rows) && |r| == |rows|
  {
    if rows == [] then []
    else
      assert rows == rows[..|rows| - 1] + [rows[|rows| - 1]];
      InsertOrdered(rows[|rows| - 1], Sort(rows[..|rows| - 1]));
      var r := Insert(rows[|rows| - 1], Sort(rows[..|rows| - 1]));
      assert |multiset(r)| == |r| && |multiset(rows)| == |rows|;
      r
  }

  // ---------------------------------------------------------------- assembly

  /** The task an id stands for: `dict(zip(ids, hashes))`, so a repeated id means its last place. */
  function TaskOf(ids: seq<string>, id: string): (at: Option<nat>)
    ensures at.Some? ==> at.value < |ids| && ids[at.value] == id
  {
    if ids == [] then None
    else if ids[|ids| - 1] == id then Some(|ids| - 1)
    else TaskOf(ids[..|ids| - 1], id)
  }

  /** `hashes.index(hash)`. */
  function IndexOf(hashes: seq<string>, hash: string, from: nat): (at: nat)
    requires from <= |hashes| && hash in hashes[from..]
    ensures from <= at < |hashes| && hashes[at] == hash
    ensures forall k :: from <= k < at ==> hashes[k] != hash
    decreases |hashes| - from
  {
    if hashes[from] == hash then from else IndexOf(hashes, hash, from + 1)
  }

  predicate Known(sampling: Sampling, slice: Slice) {
    TaskOf(sampling.ids, slice.taskId).Some?
  }

  function HashOf(sampling: Sampling, slice: Slice): string
    requires sampling.Paired() && Known(sampling, slice)
  {
    sampling.hashes[TaskOf(sampling.ids, slice.taskId).value]
  }

  function Remap(sampling: Sampling, slice: Slice): Row
    requires sampling.Paired() && Known(sampling, slice)
  {
    var hash := HashOf(sampling, slice);
    Row(slice.rowTaskId, hash, IndexOf(sampling.hashes, hash, 0), slice.seed, slice.output, slice.value)
  }

  predicate AllKnown(sampling: Sampling, slices: seq<Slice>) {
    forall i :: 0 <= i < |slices| ==> Known(sampling, slices[i])
  }

  predicate HeadersAgree(slices: seq<Slice>) {
    forall i :: 0 <= i < |slices| ==> slices[i].header == slices[0].header
  }

  function Remapped(sampling: Sampling, slices: seq<Slice>): seq<Row>
    requires sampling.Paired() && AllKnown(sampling, slices)
  {
    seq(|slices|, i requires 0 <= i < |slices| => Remap(sampling, slices[i]))
  }

  /** The value recorded for a cell: the last slice wins, and a cell without one is missing. */
  function ValueAt(rows: seq<Row>, hash: string, seed: nat): RowValue {
    if rows == [] then Missing
    else if rows[|rows| - 1].taskHash == hash && rows[|rows| - 1].seed == seed then rows[|rows| - 1].value
    else ValueAt(rows[..|rows| - 1], hash, seed)
  }

  /** The row vector of every planned task. */
  function CellVectors(rows: seq<Row>, hashes: seq<string>, seeds: nat): seq<seq<RowValue>> {
    seq(|hashes|, t requires 0 <= t < |hashes| => seq(seeds, s requires 0 <= s => ValueAt(rows, hashes[t], s)))
  }

  datatype Assembly = Assembly(evaluation: Evaluation, vectors: seq<seq<RowValue>>, rows: seq<Row>)

  predicate Assembles(sampling: Sampling, slices: seq<Slice>)
    requires sampling.Paired()
  {
    && slices != [] && HeadersAgree(slices) && AllKnown(sampling, slices)
    && RecordValid(Sort(Remapped(sampling, slices)), sampling.hashes, sampling.seeds)
  }

  function Assembled(sampling: Sampling, slices: seq<Slice>): Assembly
    requires sampling.Paired() && Assembles(sampling, slices)
  {
    var rows := Remapped(sampling, slices);
    var vectors := CellVectors(rows, sampling.hashes, sampling.seeds);
    Assembly(MeanOf(sampling.policy, vectors), vectors, Sort(rows))
  }

  function TaskRowsOf(vectors: seq<seq<RowValue>>, hashes: seq<string>): seq<TaskRows>
    requires |vectors| == |hashes|
  {
    seq(|hashes|, t requires 0 <= t < |hashes| => TaskRows(hashes[t], vectors[t]))
  }

  method CheckHeaders(slices: seq<Slice>) returns (agree: bool)
    requires slices != []
    ensures agree <==> HeadersAgree(slices)
  {
    var k := 1;
    while k < |slices|
      invariant 1 <= k <= |slices| && forall j :: 0 <= j < k ==> slices[j].header == slices[0].header
    {
      if slices[k].header != slices[0].header { return false; }
      k := k + 1;
    }
    return true;
  }

  /** The loop over the slices: the remapped rows, and the value of every cell. */
  method CollectSlices(sampling: Sampling, slices: seq<Slice>)
    returns (known: bool, rows: seq<Row>, byCell: map<(string, nat), RowValue>)
    requires sampling.Paired()
    ensures known <==> AllKnown(sampling, slices)
    ensures known ==> rows == Remapped(sampling, slices)
    ensures known ==> forall hash: string, seed: nat :: ValueAt(rows, hash, seed) == CellOf(byCell, hash, seed)
  {
    rows, byCell := [], map[];
    var i := 0;
    while i < |slices|
      invariant i <= |slices| && AllKnown(sampling, slices[..i])
      invariant rows == Remapped(sampling, slices[..i])
      invariant forall hash: string, seed: nat :: ValueAt(rows, hash, seed) == CellOf(byCell, hash, seed)
    {
      if !Known(sampling, slices[i]) { return false, [], map[]; }
      var row := Remap(sampling, slices[i]);
      assert slices[..i + 1] == slices[..i] + [slices[i]];
      assert (rows + [row])[..|rows|] == rows;
      rows := rows + [row];
      byCell := byCell[(row.taskHash, row.seed) := row.value];
      i := i + 1;
    }
    assert slices[..|slices|] == slices;
    return true, rows, byCell;
  }

  function CellOf(byCell: map<(string, nat), RowValue>, hash: string, seed: nat): RowValue {
    if (hash, seed) in byCell then byCell[(hash, seed)] else Missing
  }

  /** `_persist_assembled_success`, up to the records it persists. */
  method AssembleFromRowSlices(sampling: Sampling, slices: seq<Slice>) returns (result: Option<Assembly>)
    requires sampling.Paired()
    ensures result.Some? <==> Assembles(sampling, slices)
    ensures result.Some? ==> result.value == Assembled(sampling, slices)
  {
    if slices == [] { return None; }
    var agree := CheckHeaders(slices);
    if !agree { return None; }
    var known, rows, byCell := CollectSlices(sampling, slices);
    if !known { return None; }
    var vectors := seq(|sampling.hashes|, t requires 0 <= t < |sampling.hashes| =>
      seq(sampling.seeds, s requires 0 <= s => CellOf(byCell, sampling.hashes[t], s)));
    assert vectors == CellVectors(rows, sampling.hashes, sampling.seeds) by {
      forall t | 0 <= t < |sampling.hashes|
        ensures vectors[t] == CellVectors(rows, sampling.hashes, sampling.seeds)[t]
      {
      }
    }
    var plan := Plan(sampling.hashes, sampling.seeds, sampling.policy);
    VectorsObserved(plan, vectors);
    var mean := UnweightedTaskMean(plan, TaskRowsOf(vectors, sampling.hashes));
    var sorted := Sort(rows);
    var valid := ValidateRows(sorted, sampling.hashes, sampling.seeds);
    if mean.Err? || !valid { return None; }
    return Some(Assembly(mean.value, vectors, sorted));
  }

  /** Complete vectors handed over task by task come back as they are. */
  lemma VectorsObserved(plan: Plan, vectors: seq<seq<RowValue>>)
    requires |vectors| == |plan.tasks| && forall t :: 0 <= t < |vectors| ==> |vectors[t]| == plan.seeds
    ensures var observed := TaskRowsOf(vectors, plan.tasks);
            HashesOk(plan.tasks) ==> Acceptable(plan, observed) && Vectors(plan, observed) == vectors
  {
    var observed := TaskRowsOf(vectors, plan.tasks);
    if HashesOk(plan.tasks) {
      assert NoDuplicates(observed);
      forall t | 0 <= t < |plan.tasks|
        ensures RowsFor(observed, plan.tasks[t]) == vectors[t]
      {
        assert observed[t].task == plan.tasks[t];
      }
      forall t | 0 <= t < |plan.tasks|
        ensures Vectors(plan, observed)[t] == vectors[t]
      {
        assert Completed(vectors[t], plan.seeds) == vectors[t];
      }
    }
  }

  // ---------------------------------------------------------------- when assembly succeeds

  predicate DistinctKeys(rows: seq<Row>) {
    forall i, j :: 0 <= i < j < |rows| ==> KeyOf(rows[i]) != KeyOf(rows[j])
  }

  predicate InPlan(rows: seq<Row>, tasks: nat, seeds: nat) {
    forall i :: 0 <= i < |rows| ==> rows[i].task < tasks && rows[i].seed < seeds
  }

  predicate HasRow(rows: seq<Row>, t: nat, s: nat) {
    exists i :: 0 <= i < |rows| && KeyOf(rows[i]) == Key(t, s)
  }

  /** The rows are a permutation of the full task by seed matrix: every planned cell has exactly one row and
      there is no other row. */
  predicate Permutes(rows: seq<Row>, tasks: nat, seeds: nat) {
    && DistinctKeys(rows) && InPlan(rows, tasks, seeds)
    && forall t: nat, s: nat :: t < tasks && s < seeds ==> HasRow(rows, t, s)
  }

  lemma SameMembers(a: seq<Row>, b: seq<Row>, i: nat) returns (j: nat)
    requires multiset(a) == multiset(b) && i < |a|
    ensures j < |b| && b[j] == a[i]
  {
    assert a[i] in multiset(b);
    j :| 0 <= j < |b| && b[j] == a[i];
  }

  lemma TwoPlaces(s: seq<Row>, i: nat, j: nat)
    requires i < j < |s| && s[i] == s[j]
    ensures multiset(s)[s[i]] >= 2
  {
    assert s == s[..i] + [s[i]] + s[i + 1..j] + [s[j]] + s[j + 1..];
  }

  lemma OnePlace(s: seq<Row>, i: nat)
    requires i < |s| && DistinctKeys(s)
    ensures multiset(s)[s[i]] == 1
  {
    assert s == s[..i] + [s[i]] + s[i + 1..];
    assert s[i] !in s[..i] && s[i] !in s[i + 1..];
  }

  lemma DistinctKeysSame(a: seq<Row>, b: seq<Row>)
    requires multiset(a) == multiset(b) && DistinctKeys(a)
    ensures DistinctKeys(b)
  {
    forall i, j | 0 <= i < j < |b|
      ensures KeyOf(b[i]) != KeyOf(b[j])
    {
      var x := SameMembers(b, a, i);
      var y := SameMembers(b, a, j);
      OnePlace(a, x);
      if x == y {
        TwoPlaces(b, i, j);
      }
    }
  }

  lemma NamesAgreeSame(a: seq<Row>, b: seq<Row>)
    requires multiset(a) == multiset(b) && NamesAgree(a)
    ensures NamesAgree(b)
  {
    forall i, j | 0 <= i < |b| && 0 <= j < |b|
      ensures b[i].taskHash == b[j].taskHash <==> b[i].taskId == b[j].taskId
    {
      var x := SameMembers(b, a, i);
      var y := SameMembers(b, a, j);
    }
  }

  lemma PermutesSame(a: seq<Row>, b: seq<Row>, tasks: nat, seeds: nat)
    requires multiset(a) == multiset(b) && Permutes(a, tasks, seeds)
    ensures Permutes(b, tasks, seeds)
  {
    DistinctKeysSame(a, b);
    forall i | 0 <= i < |b|
      ensures b[i].task < tasks && b[i].seed < seeds
    {
      var x := SameMembers(b, a, i);
    }
    forall t: nat, s: nat | t < tasks && s < seeds
      ensures HasRow(b, t, s)
    {
      assert HasRow(a, t, s);
      var i :| 0 <= i < |a| && KeyOf(a[i]) == Key(t, s);
      var j := SameMembers(a, b, i);
    }
  }

  lemma RowMajorPermutes(rows: seq<Row>, tasks: nat, seeds: nat)
    requires RowMajor(rows, tasks, seeds)
    ensures Permutes(rows, tasks, seeds)
  {
    forall i, j | 0 <= i < j < |rows|
      ensures KeyOf(rows[i]) != KeyOf(rows[j])
    {
      assert Ordinal(KeyOf(rows[i]), tasks, seeds) == Some(i) && Ordinal(KeyOf(rows[j]), tasks, seeds) == Some(j);
    }
    forall i | 0 <= i < |rows|
      ensures rows[i].task < tasks && rows[i].seed < seeds
    {
      assert Ordinal(KeyOf(rows[i]), tasks, seeds) == Some(i);
    }
    forall t: nat, s: nat | t < tasks && s < seeds
      ensures HasRow(rows, t, s)
    {
      RowMajorHas(rows, tasks, seeds, Key(t, s));
    }
  }

  lemma OrderedScans(rows: seq<Row>, tasks: nat, seeds: nat, i: nat)
    requires Ordered(rows) && DistinctKeys(rows) && InPlan(rows, tasks, seeds) && i <= |rows|
    ensures KeysScan(rows[..i], tasks, seeds)
  {
    if i > 0 {
      OrderedScans(rows, tasks, seeds, i - 1);
      assert rows[..i][..i - 1] == rows[..i - 1];
      KeySetIs(rows[..i - 1], KeyOf(rows[i - 1]));
      if i > 1 {
        LaterOrdinal(rows[i - 2], rows[i - 1], tasks, seeds);
      }
    }
  }

  lemma LaterOrdinal(a: Row, b: Row, tasks: nat, seeds: nat)
    requires a.task < tasks && a.seed < seeds && b.task < tasks && b.seed < seeds
    requires !Before(b, a) && KeyOf(a) != KeyOf(b)
    ensures Ordinal(KeyOf(a), tasks, seeds).value < Ordinal(KeyOf(b), tasks, seeds).value
  {
    if a.task < b.task {
      SmallerTask(KeyOf(a), KeyOf(b), seeds);
    }
  }

  lemma OrderedPermutationIsRowMajor(rows: seq<Row>, tasks: nat, seeds: nat)
    requires Ordered(rows) && Permutes(rows, tasks, seeds)
    ensures RowMajor(rows, tasks, seeds)
  {
    OrderedScans(rows, tasks, seeds, |rows|);
    assert rows[..|rows|] == rows;
    forall t: nat, s: nat | t < tasks && s < seeds
      ensures Key(t, s) in KeySet(rows)
    {
      assert HasRow(rows, t, s);
      KeySetIs(rows, Key(t, s));
    }
    CoverIsRowMajor(rows, tasks, seeds);
  }

  /** Sorting puts rows in exact row-major order exactly when they are a permutation of the matrix. */
  lemma SortedIsRowMajorIff(rows: seq<Row>, tasks: nat, seeds: nat)
    ensures RowMajor(Sort(rows), tasks, seeds) <==> Permutes(rows, tasks, seeds)
  {
    if RowMajor(Sort(rows), tasks, seeds) {
      RowMajorPermutes(Sort(rows), tasks, seeds);
      PermutesSame(Sort(rows), rows, tasks, seeds);
    }
    if Permutes(rows, tasks, seeds) {
      PermutesSame(rows, Sort(rows), tasks, seeds);
      OrderedPermutationIsRowMajor(Sort(rows), tasks, seeds);
    }
  }

  /** Assembly succeeds exactly when the slices agree on their header, name known tasks consistently, and are a
      permutation of the full task by seed matrix. */
  lemma AssemblesIff(sampling: Sampling, slices: seq<Slice>)
    requires sampling.Paired()
    ensures Assembles(sampling, slices) <==>
              && sampling.seeds >= 1 && HashesOk(sampling.hashes) && slices != []
              && (forall i :: 0 <= i < |slices| ==> slices[i].header == slices[0].header)
              && (forall i :: 0 <= i < |slices| ==> slices[i].taskId in sampling.ids)
              && AllKnown(sampling, slices) && NamesAgree(Remapped(sampling, slices))
              && Permutes(Remapped(sampling, slices), |sampling.hashes|, sampling.seeds)
  {
    if AllKnown(sampling, slices) {
      var rows := Remapped(sampling, slices);
      SortedIsRowMajorIff(rows, |sampling.hashes|, sampling.seeds);
      if NamesAgree(rows) { NamesAgreeSame(rows, Sort(rows)); }
      if NamesAgree(Sort(rows)) { NamesAgreeSame(Sort(rows), rows); }
    }
  }

  // ---------------------------------------------------------------- what is assembled

  lemma {:induction false} ValueAtRow(rows: seq<Row>, i: nat)
    requires i < |rows|
    requires forall j :: 0 <= j < |rows| && rows[j].taskHash == rows[i].taskHash && rows[j].seed == rows[i].seed ==> j == i
    ensures ValueAt(rows, rows[i].taskHash, rows[i].seed) == rows[i].value
    decreases |rows|
  {
    if i < |rows| - 1 {
      ValueAtRow(rows[..|rows| - 1], i);
    }
  }

  /** Each entry of the row vectors is the value of the row at its place in row-major order. */
  lemma VectorsAreRows(sampling: Sampling, slices: seq<Slice>, t: nat, s: nat)
    requires sampling.Paired() && Assembles(sampling, slices)
    requires t < |sampling.hashes| && s < sampling.seeds
    ensures var a := Assembled(sampling, slices);
            && 0 <= t * sampling.seeds + s < |a.rows|
            && a.rows[t * sampling.seeds + s].task == t && a.rows[t * sampling.seeds + s].seed == s
            && a.vectors[t][s] == a.rows[t * sampling.seeds + s].value
  {
    var rows, tasks, seeds := Remapped(sampling, slices), |sampling.hashes|, sampling.seeds;
    var k := Ordinal(Key(t, s), tasks, seeds).value;
    RowMajorHas(Sort(rows), tasks, seeds, Key(t, s));
    RowMajorPermutes(Sort(rows), tasks, seeds);
    PermutesSame(Sort(rows), rows, tasks, seeds);
    CellIsRow(sampling, slices, Sort(rows)[k]);
  }

  /** The value of a cell is the value of its row, when no other row has the same key. */
  lemma CellIsRow(sampling: Sampling, slices: seq<Slice>, row: Row)
    requires sampling.Paired() && AllKnown(sampling, slices) && DistinctKeys(Remapped(sampling, slices))
    requires row in multiset(Remapped(sampling, slices))
    ensures row.task < |sampling.hashes|
    ensures ValueAt(Remapped(sampling, slices), sampling.hashes[row.task], row.seed) == row.value
  {
    var rows := Remapped(sampling, slices);
    var i :| 0 <= i < |rows| && rows[i] == row;
    assert rows[i] == Remap(sampling, slices[i]);
    forall j | 0 <= j < |rows| && rows[j].taskHash == rows[i].taskHash && rows[j].seed == rows[i].seed
      ensures j == i
    {
      assert rows[j] == Remap(sampling, slices[j]);
      assert KeyOf(rows[j]) == KeyOf(rows[i]);
    }
    ValueAtRow(rows, i);
  }

  lemma {:induction false} LastPlace(ids: seq<string>, p: nat)
    requires p < |ids| && forall q :: p < q < |ids| ==> ids[q] != ids[p]
    ensures TaskOf(ids, ids[p]) == Some(p)
  {
    if p < |ids| - 1 {
      assert ids[|ids| - 1] != ids[p];
      LastPlace(ids[..|ids| - 1], p);
    }
  }

  /** The row a slice turns into, with the task its id stands for: the last place of the id in the sampling. */
  lemma RemapIs(sampling: Sampling, slice: Slice, p: nat)
    requires sampling.Paired() && HashesOk(sampling.hashes)
    requires p < |sampling.ids| && sampling.ids[p] == slice.taskId
    requires forall q :: p < q < |sampling.ids| ==> sampling.ids[q] != sampling.ids[p]
    ensures Known(sampling, slice)
    ensures Remap(sampling, slice) == Row(slice.rowTaskId, sampling.hashes[p], p, slice.seed, slice.output, slice.value)
  {
    LastPlace(sampling.ids, p);
  }

  lemma RowAtItsOrdinal(rows: seq<Row>, row: Row, tasks: nat, seeds: nat)
    requires RowMajor(rows, tasks, seeds) && row in multiset(rows)
    ensures row.task < tasks && row.seed < seeds
    ensures 0 <= row.task * seeds + row.seed < |rows| && rows[row.task * seeds + row.seed] == row
  {
    var j :| 0 <= j < |rows| && rows[j] == row;
    assert Ordinal(KeyOf(rows[j]), tasks, seeds) == Some(j);
  }

  lemma SliceRowPlaced(sampling: Sampling, slices: seq<Slice>, i: nat, p: nat)
    requires sampling.Paired() && Assembles(sampling, slices) && i < |slices|
    requires p < |sampling.ids| && sampling.ids[p] == slices[i].taskId
    requires forall q :: p < q < |sampling.ids| ==> sampling.ids[q] != sampling.ids[p]
    ensures var rows, slice := Sort(Remapped(sampling, slices)), slices[i];
            var k := p * sampling.seeds + slice.seed;
            && slice.seed < sampling.seeds && |rows| == |slices| && 0 <= k < |rows|
            && rows[k] == Row(slice.rowTaskId, sampling.hashes[p], p, slice.seed, slice.output, slice.value)
  {
    var rows := Remapped(sampling, slices);
    RemapIs(sampling, slices[i], p);
    assert rows[i] == Remap(sampling, slices[i]);
    assert rows[i] in multiset(rows);
    RowAtItsOrdinal(Sort(rows), rows[i], |sampling.hashes|, sampling.seeds);
  }

  /** What is assembled is made of the slices and nothing else: each slice has its row at its place in the
      matrix, with its own task id, output and value under the hash its task id stands for, there are as many
      rows as slices, and the value is the one that enters the aggregate. */
  lemma EverySliceHasItsRow(sampling: Sampling, slices: seq<Slice>, i: nat, p: nat)
    requires sampling.Paired() && Assembles(sampling, slices) && i < |slices|
    requires p < |sampling.ids| && sampling.ids[p] == slices[i].taskId
    requires forall q :: p < q < |sampling.ids| ==> sampling.ids[q] != sampling.ids[p]
    ensures var a, slice := Assembled(sampling, slices), slices[i];
            var k := p * sampling.seeds + slice.seed;
            && slice.seed < sampling.seeds && |a.rows| == |slices| && 0 <= k < |a.rows|
            && a.rows[k] == Row(slice.rowTaskId, sampling.hashes[p], p, slice.seed, slice.output, slice.value)
            && a.vectors[p][slice.seed] == slice.value
  {
    SliceRowPlaced(sampling, slices, i, p);
    VectorsAreRows(sampling, slices, p, slices[i].seed);
  }

  /** The assembled aggregate, when it is defined, is the unweighted mean over the tasks of the means of the
      scores in the assembled vectors. */
  lemma AssembledMean(sampling: Sampling, slices: seq<Slice>)
    requires sampling.Paired() && Assembles(sampling, slices)
    requires Assembled(sampling, slices).evaluation.output.value.Some?
    ensures var a := Assembled(sampling, slices);
            var means := TaskMeans(a.vectors);
            means != [] && Times(a.evaluation.output.value.value, |means|) == Total(means)
  {
    MeanOverTasks(sampling.policy, Assembled(sampling, slices).vectors);
  }

  function Mapped<A, B>(f: A -> B, xs: seq<A>): seq<B> {
    seq(|xs|, i requires 0 <= i < |xs| => f(xs[i]))
  }

  function Drop<A>(xs: seq<A>, j: nat): seq<A>
    requires j < |xs|
  {
    xs[..j] + xs[j + 1..]
  }

  lemma MappedWithout<A, B>(f: A -> B, xs: seq<A>, j: nat)
    requires j < |xs|
    ensures multiset(Drop(xs, j)) == multiset(xs) - multiset{xs[j]} && |Drop(xs, j)| == |xs| - 1
    ensures multiset(Mapped(f, xs)) == multiset(Mapped(f, Drop(xs, j))) + multiset{f(xs[j])}
  {
    var before, after := xs[..j], xs[j + 1..];
    assert xs == before + [xs[j]] + after;
    assert Mapped(f, xs) == Mapped(f, before) + [f(xs[j])] + Mapped(f, after);
    assert Mapped(f, Drop(xs, j)) == Mapped(f, before) + Mapped(f, after);
  }

  lemma {:induction false} MappedSame<A, B>(f: A -> B, a: seq<A>, b: seq<A>)
    requires multiset(a) == multiset(b)
    ensures multiset(Mapped(f, a)) == multiset(Mapped(f, b))
    decreases |a|
  {
    assert |multiset(a)| == |a| && |multiset(b)| == |b|;
    if a != [] {
      var last := a[|a| - 1];
      assert last in multiset(b);
      var j :| 0 <= j < |b| && b[j] == last;
      MappedWithout(f, a, |a| - 1);
      MappedWithout(f, b, j);
      MappedSame(f, Drop(a, |a| - 1), Drop(b, j));
    }
  }

  lemma RemapSame(sampling: Sampling, a: seq<Slice>, b: seq<Slice>)
    requires sampling.Paired() && AllKnown(sampling, a) && AllKnown(sampling, b) && multiset(a) == multiset(b)
    ensures multiset(Remapped(sampling, a)) == multiset(Remapped(sampling, b))
  {
    var f := (slice: Slice) => if Known(sampling, slice) then Remap(sampling, slice) else Row("", "", 0, 0, 0, Missing);
    assert Remapped(sampling, a) == Mapped(f, a);
    assert Remapped(sampling, b) == Mapped(f, b);
    MappedSame(f, a, b);
  }

  lemma RowMajorUnique(a: seq<Row>, b: seq<Row>, tasks: nat, seeds: nat)
    requires multiset(a) == multiset(b) && RowMajor(a, tasks, seeds) && RowMajor(b, tasks, seeds)
    ensures a == b
  {
    forall k | 0 <= k < |a|
      ensures a[k] == b[k]
    {
      var j := SameMembers(a, b, k);
      assert Ordinal(KeyOf(a[k]), tasks, seeds) == Some(k) && Ordinal(KeyOf(b[j]), tasks, seeds) == Some(j);
    }
  }

  /** The order of the slices changes nothing: assembly succeeds or not alike, and the ordered rows, the row
      vectors, the aggregate and its row counts are the same. */
  lemma SliceOrderIsIrrelevant(sampling: Sampling, a: seq<Slice>, b: seq<Slice>)
    requires sampling.Paired() && multiset(a) == multiset(b) && Assembles(sampling, a)
    ensures Assembles(sampling, b) && Assembled(sampling, b) == Assembled(sampling, a)
  {
    forall i | 0 <= i < |b|
      ensures Known(sampling, b[i]) && b[i] in a
    {
      assert b[i] in multiset(a);
    }
    assert |multiset(a)| == |a| && |multiset(b)| == |b|;
    forall i | 0 <= i < |b|
      ensures b[i].header == b[0].header
    {
      assert b[i] in a && b[0] in a;
    }
    RemapSame(sampling, a, b);
    var rowsA, rowsB := Remapped(sampling, a), Remapped(sampling, b);
    AssemblesIff(sampling, a);
    AssemblesIff(sampling, b);
    PermutesSame(rowsA, rowsB, |sampling.hashes|, sampling.seeds);
    NamesAgreeSame(rowsA, rowsB);
    RowMajorUnique(Sort(rowsA), Sort(rowsB), |sampling.hashes|, sampling.seeds);
    SameVectors(sampling, a, b);
  }

  lemma SameVectors(sampling: Sampling, a: seq<Slice>, b: seq<Slice>)
    requires sampling.Paired() && Assembles(sampling, a) && Assembles(sampling, b)
    requires Assembled(sampling, a).rows == Assembled(sampling, b).rows
    ensures Assembled(sampling, a).vectors == Assembled(sampling, b).vectors
  {
    forall t, s | 0 <= t < |sampling.hashes| && 0 <= s < sampling.seeds
      ensures Assembled(sampling, a).vectors[t][s] == Assembled(sampling, b).vectors[t][s]
    {
      SameCell(sampling, a, b, t, s);
    }
    SameMatrix(Assembled(sampling, a).vectors, Assembled(sampling, b).vectors, sampling.seeds);
  }

  lemma SameMatrix(x: seq<seq<RowValue>>, y: seq<seq<RowValue>>, seeds: nat)
    requires |x| == |y| && forall t :: 0 <= t < |x| ==> |x[t]| == |y[t]| == seeds
    requires forall t, s :: 0 <= t < |x| && 0 <= s < seeds ==> x[t][s] == y[t][s]
    ensures x == y
  {
    forall t | 0 <= t < |x|
      ensures x[t] == y[t]
    {
    }
  }

  lemma SameCell(sampling: Sampling, a: seq<Slice>, b: seq<Slice>, t: nat, s: nat)
    requires sampling.Paired() && Assembles(sampling, a) && Assembles(sampling, b)
    requires Assembled(sampling, a).rows == Assembled(sampling, b).rows
    requires t < |sampling.hashes| && s < sampling.seeds
    ensures var x, y := Assembled(sampling, a).vectors, Assembled(sampling, b).vectors;
            t < |x| && t < |y| && s < |x[t]| && s < |y[t]| && x[t][s] == y[t][s]
  {
    VectorsAreRows(sampling, a, t, s);
    VectorsAreRows(sampling, b, t, s);
  }
}
