/** The validator of published evidence re-derives per-task counts and values from the published rows; what
    assembly publishes always passes it. */
module RowDerivation {
  import opened NestedMean
  import opened RowAssembly

  // ---------------------------------------------------------------- what assembly publishes

  /** `per_task_score`. */
  function TaskScore(policy: Policy, rows: seq<RowValue>): Option<real> {
    var output := Aggregate(policy.MeanConfig(), Inputs(rows)).value;
    if output.status.OK? then output.value else None
  }

  /** `per_task_count`. */
  function TaskCount(rows: seq<RowValue>): nat {
    Count(rows, (r: RowValue) => r.Scored?)
  }

  function TaskScores(policy: Policy, vectors: seq<seq<RowValue>>): seq<Option<real>> {
    seq(|vectors|, t requires 0 <= t < |vectors| => TaskScore(policy, vectors[t]))
  }

  function TaskCounts(vectors: seq<seq<RowValue>>): seq<nat> {
    seq(|vectors|, t requires 0 <= t < |vectors| => TaskCount(vectors[t]))
  }

  // ---------------------------------------------------------------- what the validator checks

  /** The published values of one task, in order. */
  function Group(rows: seq<Row>, hash: string): seq<RowValue> {
    if rows == [] then []
    else Group(rows[..|rows| - 1], hash) + (if rows[|rows| - 1].taskHash == hash then [rows[|rows| - 1].value] else [])
  }

  /** A present value is exactly the mean of the present rows; a value may be withheld only from a task that
      lost a row. */
  predicate ValueOk(rows: seq<RowValue>, seeds: nat, value: Option<real>) {
    match value
    case None => TaskCount(rows) != seeds
    case Some(v) => Scores(rows) != [] && v == Total(Scores(rows)) / |Scores(rows)| as real
  }

  predicate Fits(rows: seq<Row>, hashes: seq<string>, seeds: nat) {
    && (forall i :: 0 <= i < |rows| ==> rows[i].taskHash in hashes)
    && (forall t :: 0 <= t < |hashes| ==> |Group(rows, hashes[t])| <= seeds)
  }

  predicate Derived(rows: seq<Row>, hashes: seq<string>, seeds: nat, counts: seq<nat>, values: seq<Option<real>>) {
    && Fits(rows, hashes, seeds)
    && |counts| == |values| == |hashes|
    && forall t :: 0 <= t < |hashes| ==>
         && counts[t] == TaskCount(Completed(Group(rows, hashes[t]), seeds))
         && ValueOk(Completed(Group(rows, hashes[t]), seeds), seeds, values[t])
  }

  /** The loop that groups the rows by task. */
  method GroupRows(rows: seq<Row>, hashes: seq<string>) returns (known: bool, groups: map<string, seq<RowValue>>)
    ensures known <==> forall i :: 0 <= i < |rows| ==> rows[i].taskHash in hashes
    ensures known ==> forall h :: h in hashes ==> h in groups && groups[h] == Group(rows, h)
  {
    groups := map h | h in hashes :: [];
    var i := 0;
    while i < |rows|
      invariant i <= |rows| && forall j :: 0 <= j < i ==> rows[j].taskHash in hashes
      invariant forall h :: h in groups <==> h in hashes
      invariant forall h :: h in hashes ==> groups[h] == Group(rows[..i], h)
    {
      assert rows[..i + 1][..i] == rows[..i];
      if rows[i].taskHash !in groups { return false, map[]; }
      groups := groups[rows[i].taskHash := groups[rows[i].taskHash] + [rows[i].value]];
      i := i + 1;
    }
    assert rows[..|rows|] == rows;
    return true, groups;
  }

  /** `_validate_row_derivation`. */
  method ValidateRowDerivation(rows: seq<Row>, hashes: seq<string>, seeds: nat, counts: seq<nat>, values: seq<Option<real>>)
    returns (valid: bool)
    ensures valid <==> Derived(rows, hashes, seeds, counts, values)
  {
    var known, groups := GroupRows(rows, hashes);
    if !known || |counts| != |hashes| || |values| != |hashes| { return false; }
    var t := 0;
    while t < |hashes|
      invariant t <= |hashes|
      invariant forall k :: 0 <= k < t ==> |Group(rows, hashes[k])| <= seeds
      invariant forall k :: 0 <= k < t ==>
                  && counts[k] == TaskCount(Completed(Group(rows, hashes[k]), seeds))
                  && ValueOk(Completed(Group(rows, hashes[k]), seeds), seeds, values[k])
    {
      var group := groups[hashes[t]];
      assert group == Group(rows, hashes[t]);
      if |group| > seeds { return false; }
      var completed := Completed(group, seeds);
      if counts[t] != TaskCount(completed) || !ValueOk(completed, seeds, values[t]) { return false; }
      t := t + 1;
    }
    return true;
  }

  // ---------------------------------------------------------------- producer and validator agree

  lemma {:induction false} ScoresAreCounted(rows: seq<RowValue>)
    ensures |Scores(rows)| == TaskCount(rows)
  {
    if rows != [] {
      ScoresAreCounted(rows[1..]);
    }
  }

  lemma {:induction false} AllCounted(rows: seq<RowValue>)
    ensures TaskCount(rows) <= |rows|
    ensures TaskCount(rows) == |rows| ==> forall i :: 0 <= i < |rows| ==> rows[i].Scored?
  {
    if rows != [] {
      AllCounted(rows[1..]);
      assert forall i :: 0 < i < |rows| ==> rows[i] == rows[1..][i - 1];
    }
  }

  /** Whatever the policy, the score of a complete row vector is one the validator accepts. */
  lemma ScoreIsAccepted(policy: Policy, rows: seq<RowValue>)
    requires rows != []
    ensures ValueOk(rows, |rows|, TaskScore(policy, rows))
  {
    TaskInputShape(policy, rows);
    PresentAreScores(rows);
    ScoresAreCounted(rows);
    AllCounted(rows);
    assert TaskScore(policy, rows) == TaskInput(policy, rows).value;
    if TaskCount(rows) == |rows| {
      assert rows[0].Scored?;
    }
  }

  /** Exactly the rows of one block name the task. */
  predicate BlockOf(rows: seq<Row>, hash: string, from: nat, seeds: nat) {
    from + seeds <= |rows| && forall i :: 0 <= i < |rows| ==> (rows[i].taskHash == hash <==> from <= i < from + seeds)
  }

  function Clip(k: int, seeds: nat): nat {
    if k <= 0 then 0 else if k <= seeds then k else seeds
  }

  lemma {:induction false} GroupOfBlock(rows: seq<Row>, hash: string, from: nat, seeds: nat, k: nat)
    requires BlockOf(rows, hash, from, seeds) && k <= |rows|
    ensures |Group(rows[..k], hash)| == Clip(k - from, seeds)
    ensures forall s :: 0 <= s < Clip(k - from, seeds) ==> Group(rows[..k], hash)[s] == rows[from + s].value
  {
    if k > 0 {
      GroupOfBlock(rows, hash, from, seeds, k - 1);
      assert rows[..k][..k - 1] == rows[..k - 1];
    }
  }

  /** In row-major order the rows of a task are one block. */
  lemma TaskIsBlock(rows: seq<Row>, hashes: seq<string>, seeds: nat, t: nat, from: nat)
    requires RowMajor(rows, |hashes|, seeds) && HashesOk(hashes) && t < |hashes| && seeds >= 1 && from == t * seeds
    requires forall i :: 0 <= i < |rows| ==> rows[i].task < |hashes| && rows[i].taskHash == hashes[rows[i].task]
    ensures BlockOf(rows, hashes[t], from, seeds)
  {
    OrdinalBound(Key(t, seeds - 1), |hashes|, seeds);
    forall i | 0 <= i < |rows|
      ensures rows[i].taskHash == hashes[t] <==> from <= i < from + seeds
    {
      InBlock(rows[i], |hashes|, seeds, t, from, i);
      assert rows[i].taskHash == hashes[t] <==> rows[i].task == t;
    }
  }

  lemma InBlock(row: Row, tasks: nat, seeds: nat, t: nat, from: nat, k: nat)
    requires Ordinal(KeyOf(row), tasks, seeds) == Some(k) && t < tasks && from == t * seeds
    ensures row.task == t <==> from <= k < from + seeds
  {
    if row.task < t {
      SmallerTask(KeyOf(row), Key(t, 0), seeds);
    } else if row.task > t {
      SmallerTask(Key(t, seeds - 1), KeyOf(row), seeds);
    }
  }

  /** Every remapped row carries the hash of its task index. */
  lemma RowsNameTheirTask(sampling: Sampling, slices: seq<Slice>)
    requires sampling.Paired() && Assembles(sampling, slices)
    ensures forall row :: row in Assembled(sampling, slices).rows ==>
              row.task < |sampling.hashes| && row.taskHash == sampling.hashes[row.task]
  {
    var rows := Remapped(sampling, slices);
    forall row | row in Sort(rows)
      ensures row.task < |sampling.hashes| && row.taskHash == sampling.hashes[row.task]
    {
      assert row in multiset(rows);
      var i :| 0 <= i < |rows| && rows[i] == row;
      assert rows[i] == Remap(sampling, slices[i]);
    }
  }

  lemma GroupIsVector(sampling: Sampling, slices: seq<Slice>, t: nat)
    requires sampling.Paired() && Assembles(sampling, slices) && t < |sampling.hashes|
    ensures Group(Assembled(sampling, slices).rows, sampling.hashes[t]) == Assembled(sampling, slices).vectors[t]
  {
    var group, vector := Group(Assembled(sampling, slices).rows, sampling.hashes[t]), Assembled(sampling, slices).vectors[t];
    GroupLength(sampling, slices, t);
    forall s | 0 <= s < sampling.seeds
      ensures group[s] == vector[s]
    {
      GroupCell(sampling, slices, t, s);
    }
  }

  lemma GroupLength(sampling: Sampling, slices: seq<Slice>, t: nat)
    requires sampling.Paired() && Assembles(sampling, slices) && t < |sampling.hashes|
    ensures |Group(Assembled(sampling, slices).rows, sampling.hashes[t])| == sampling.seeds
  {
    var from := AssembledBlock(sampling, slices, t);
    WholeGroup(Assembled(sampling, slices).rows, sampling.hashes[t], from, sampling.seeds);
  }

  lemma AssembledBlock(sampling: Sampling, slices: seq<Slice>, t: nat) returns (from: nat)
    requires sampling.Paired() && Assembles(sampling, slices) && t < |sampling.hashes|
    ensures from == t * sampling.seeds
    ensures BlockOf(Assembled(sampling, slices).rows, sampling.hashes[t], from, sampling.seeds)
  {
    from := Ordinal(Key(t, 0), |sampling.hashes|, sampling.seeds).value;
    RowsNameTheirTask(sampling, slices);
    TaskIsBlock(Assembled(sampling, slices).rows, sampling.hashes, sampling.seeds, t, from);
  }

  lemma WholeGroup(rows: seq<Row>, hash: string, from: nat, seeds: nat)
    requires BlockOf(rows, hash, from, seeds)
    ensures |Group(rows, hash)| == seeds
    ensures forall s :: 0 <= s < seeds ==> Group(rows, hash)[s] == rows[from + s].value
  {
    GroupOfBlock(rows, hash, from, seeds, |rows|);
    assert rows[..|rows|] == rows;
  }

  lemma GroupCell(sampling: Sampling, slices: seq<Slice>, t: nat, s: nat)
    requires sampling.Paired() && Assembles(sampling, slices) && t < |sampling.hashes| && s < sampling.seeds
    ensures |Group(Assembled(sampling, slices).rows, sampling.hashes[t])| == sampling.seeds
    ensures Group(Assembled(sampling, slices).rows, sampling.hashes[t])[s] == Assembled(sampling, slices).vectors[t][s]
  {
    var from := AssembledBlock(sampling, slices, t);
    WholeGroup(Assembled(sampling, slices).rows, sampling.hashes[t], from, sampling.seeds);
    VectorsAreRows(sampling, slices, t, s);
  }

  /** The rows published for a task are its vector, and its score is the one the validator expects. */
  predicate TaskIsDerived(rows: seq<Row>, hash: string, seeds: nat, policy: Policy, vector: seq<RowValue>) {
    && |Group(rows, hash)| <= seeds && Completed(Group(rows, hash), seeds) == vector
    && ValueOk(vector, seeds, TaskScore(policy, vector))
  }

  lemma DerivedByTask(rows: seq<Row>, hashes: seq<string>, seeds: nat, policy: Policy, vectors: seq<seq<RowValue>>)
    requires |vectors| == |hashes| && forall row :: row in rows ==> row.task < |hashes| && row.taskHash == hashes[row.task]
    requires forall t :: 0 <= t < |hashes| ==> TaskIsDerived(rows, hashes[t], seeds, policy, vectors[t])
    ensures Derived(rows, hashes, seeds, TaskCounts(vectors), TaskScores(policy, vectors))
  {
    forall t | 0 <= t < |hashes|
      ensures Completed(Group(rows, hashes[t]), seeds) == vectors[t] && ValueOk(vectors[t], seeds, TaskScore(policy, vectors[t]))
    {
      assert TaskIsDerived(rows, hashes[t], seeds, policy, vectors[t]);
    }
  }

  /** Assembled evidence always passes the validator: its rows, its per-task counts and its per-task scores,
      under either policy. */
  lemma AssembledEvidenceValidates(sampling: Sampling, slices: seq<Slice>)
    requires sampling.Paired() && Assembles(sampling, slices)
    ensures var a := Assembled(sampling, slices);
            Derived(a.rows, sampling.hashes, sampling.seeds, TaskCounts(a.vectors), TaskScores(sampling.policy, a.vectors))
  {
    var a := Assembled(sampling, slices);
    RowsNameTheirTask(sampling, slices);
    forall t | 0 <= t < |sampling.hashes|
      ensures TaskIsDerived(a.rows, sampling.hashes[t], sampling.seeds, sampling.policy, a.vectors[t])
    {
      GroupIsVector(sampling, slices, t);
      VectorAccepted(sampling.policy, a.vectors[t]);
    }
    DerivedByTask(a.rows, sampling.hashes, sampling.seeds, sampling.policy, a.vectors);
  }

  lemma VectorAccepted(policy: Policy, rows: seq<RowValue>)
    requires rows != []
    ensures Completed(rows, |rows|) == rows && ValueOk(rows, |rows|, TaskScore(policy, rows))
  {
    ScoreIsAccepted(policy, rows);
  }
}
