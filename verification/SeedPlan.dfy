/** Plans of repeated task trials, and their reconstruction from provenance rows. */
module SeedPlan {
  import opened IndexKeys

  datatype Option<+T> = None | Some(value: T)

  datatype Result<+T> = Ok(value: T) | Err(why: Failure)

  datatype Failure = DuplicateRow | NoRows | UnequalCounts | NotContiguous | NoTasks | RepeatedTask | RepeatedKey | UnknownSlot

  datatype Trial = Trial(task: string, index: nat, rng: Option<int>)

  datatype Plan = Plan(id: string, version: string, tasks: seq<string>, seeds: nat, rngSeeds: seq<(string, int)>)

  predicate NoRepeats<T(==)>(xs: seq<T>) {
    forall i, j :: 0 <= i < j < |xs| ==> xs[i] != xs[j]
  }

  function KeysOf(pairs: seq<(string, int)>): seq<string> {
    seq(|pairs|, i requires 0 <= i < |pairs| => pairs[i].0)
  }

  /** The key names a slot of the plan. */
  predicate IsSlot(plan: Plan, key: string) {
    exists t, i :: 0 <= t < |plan.tasks| && 0 <= i < plan.seeds && key == Keyed(plan.tasks[t], i)
  }

  /** `validate_num_seeds` and `validate_slots`. */
  predicate Valid(plan: Plan) {
    && plan.seeds >= 1 && plan.tasks != [] && NoRepeats(plan.tasks)
    && NoRepeats(KeysOf(plan.rngSeeds))
    && (forall i :: 0 <= i < |plan.rngSeeds| ==> IsSlot(plan, plan.rngSeeds[i].0))
  }

  /** `dict(rng_seeds).get(key)`. */
  function Lookup(pairs: seq<(string, int)>, key: string): Option<int> {
    if pairs == [] then None
    else if pairs[|pairs| - 1].0 == key then Some(pairs[|pairs| - 1].1)
    else Lookup(pairs[..|pairs| - 1], key)
  }

  lemma {:induction false} LookupFinds(pairs: seq<(string, int)>, key: string)
    ensures Lookup(pairs, key).Some? ==> exists i :: 0 <= i < |pairs| && pairs[i] == (key, Lookup(pairs, key).value)
    ensures Lookup(pairs, key).None? ==> forall i :: 0 <= i < |pairs| ==> pairs[i].0 != key
  {
    if pairs != [] {
      LookupFinds(pairs[..|pairs| - 1], key);
    }
  }

  // ---------------------------------------------------------------- trials

  function TaskTrials(plan: Plan, task: string, upTo: nat): (trials: seq<Trial>)
    ensures |trials| == upTo
  {
    seq(upTo, i requires 0 <= i => Trial(task, i, Lookup(plan.rngSeeds, Keyed(task, i))))
  }

  function TrialsUpTo(plan: Plan, t: nat): seq<Trial>
    requires t <= |plan.tasks|
  {
    if t == 0 then [] else TrialsUpTo(plan, t - 1) + TaskTrials(plan, plan.tasks[t - 1], plan.seeds)
  }

  function Trials(plan: Plan): seq<Trial> {
    TrialsUpTo(plan, |plan.tasks|)
  }

  /** `task_trials`: task by task, seed by seed. */
  method ListTrials(plan: Plan) returns (trials: seq<Trial>)
    ensures trials == Trials(plan)
  {
    trials := [];
    for t := 0 to |plan.tasks|
      invariant trials == TrialsUpTo(plan, t)
    {
      ghost var before := trials;
      for i := 0 to plan.seeds
        invariant trials == before + TaskTrials(plan, plan.tasks[t], i)
      {
        trials := trials + [Trial(plan.tasks[t], i, Lookup(plan.rngSeeds, Keyed(plan.tasks[t], i)))];
      }
    }
  }

  /** The trial of a task and a seed stands at its row-major place and carries the last random seed recorded
      for its key, if there is one. */
  lemma {:induction false} TrialAt(plan: Plan, upTo: nat, t: nat, i: nat)
    requires t < upTo <= |plan.tasks| && i < plan.seeds
    ensures |TrialsUpTo(plan, upTo)| == upTo * plan.seeds && 0 <= t * plan.seeds + i < upTo * plan.seeds
    ensures TrialsUpTo(plan, upTo)[t * plan.seeds + i] == Trial(plan.tasks[t], i, Lookup(plan.rngSeeds, Keyed(plan.tasks[t], i)))
  {
    assert upTo * plan.seeds == (upTo - 1) * plan.seeds + plan.seeds;
    if t < upTo - 1 {
      TrialAt(plan, upTo - 1, t, i);
    } else {
      if t > 0 { TrialAt(plan, t, t - 1, i); }
    }
  }

  predicate TaskAmong(plan: Plan, t: nat, task: string)
    requires t <= |plan.tasks|
  {
    exists k :: 0 <= k < t && plan.tasks[k] == task
  }

  /** A trial belongs to the plan exactly when its task and index do and its random seed is the recorded one. */
  lemma {:induction false} TrialsMember(plan: Plan, t: nat, trial: Trial)
    requires t <= |plan.tasks|
    ensures trial in TrialsUpTo(plan, t) <==>
              && TaskAmong(plan, t, trial.task) && trial.index < plan.seeds
              && trial.rng == Lookup(plan.rngSeeds, Keyed(trial.task, trial.index))
  {
    if t > 0 {
      TrialsMember(plan, t - 1, trial);
      var last := TaskTrials(plan, plan.tasks[t - 1], plan.seeds);
      if trial in last {
        assert plan.tasks[t - 1] == trial.task;
      }
      if plan.tasks[t - 1] == trial.task && trial.index < plan.seeds
         && trial.rng == Lookup(plan.rngSeeds, Keyed(trial.task, trial.index)) {
        assert last[trial.index] == trial;
      }
      assert TaskAmong(plan, t, trial.task) <==> TaskAmong(plan, t - 1, trial.task) || plan.tasks[t - 1] == trial.task;
    }
  }

  // ---------------------------------------------------------------- reconstruction

  /** The tasks of some rows, in order of first appearance. */
  function Order(rows: seq<Trial>): seq<string> {
    if rows == [] then []
    else
      var before, task := Order(rows[..|rows| - 1]), rows[|rows| - 1].task;
      if task in before then before else before + [task]
  }

  function Indices(rows: seq<Trial>, task: string): set<nat> {
    if rows == [] then {}
    else Indices(rows[..|rows| - 1], task) + (if rows[|rows| - 1].task == task then {rows[|rows| - 1].index} else {})
  }

  function SeedsOf(rows: seq<Trial>): map<(string, nat), int> {
    if rows == [] then map[]
    else
      var before, last := SeedsOf(rows[..|rows| - 1]), rows[|rows| - 1];
      if last.rng.Some? then before[(last.task, last.index) := last.rng.value] else before
  }

  /** No row repeats the task and index of an earlier one. */
  predicate Unrepeated(rows: seq<Trial>) {
    rows == [] ||
    (Unrepeated(rows[..|rows| - 1]) && rows[|rows| - 1].index !in Indices(rows[..|rows| - 1], rows[|rows| - 1].task))
  }

  function Range(n: nat): set<nat> {
    if n == 0 then {} else Range(n - 1) + {n - 1}
  }

  /** The number of repeats of the first task; all tasks must have exactly the indices below it. */
  function Repeats(rows: seq<Trial>): nat {
    if Order(rows) == [] then 0 else |Indices(rows, Order(rows)[0])|
  }

  predicate Acceptable(rows: seq<Trial>) {
    && Unrepeated(rows) && Order(rows) != []
    && forall t :: 0 <= t < |Order(rows)| ==> Indices(rows, Order(rows)[t]) == Range(Repeats(rows))
  }

  function PairsFor(task: string, seeds: map<(string, nat), int>, upTo: nat): seq<(string, int)> {
    if upTo == 0 then []
    else
      PairsFor(task, seeds, upTo - 1) +
      (if (task, upTo - 1) in seeds then [(Keyed(task, upTo - 1), seeds[(task, upTo - 1)])] else [])
  }

  function SeedPairs(tasks: seq<string>, seeds: map<(string, nat), int>, n: nat): seq<(string, int)> {
    if tasks == [] then [] else SeedPairs(tasks[..|tasks| - 1], seeds, n) + PairsFor(tasks[|tasks| - 1], seeds, n)
  }

  function Rebuilt(rows: seq<Trial>, id: string, version: string): Plan {
    var n := Repeats(rows);
    Plan(id, version, Order(rows), n, SeedPairs(Order(rows), SeedsOf(rows), n))
  }

  /** The loop over the rows: task order, indices by task and recorded seeds. */
  method ScanRows(rows: seq<Trial>)
    returns (unrepeated: bool, order: seq<string>, indices: map<string, set<nat>>, seeds: map<(string, nat), int>)
    ensures unrepeated <==> Unrepeated(rows)
    ensures unrepeated ==> order == Order(rows) && seeds == SeedsOf(rows)
    ensures unrepeated ==> forall t :: 0 <= t < |order| ==> order[t] in indices && indices[order[t]] == Indices(rows, order[t])
  {
    order, indices, seeds := [], map[], map[];
    var i := 0;
    while i < |rows|
      invariant i <= |rows| && Unrepeated(rows[..i])
      invariant order == Order(rows[..i]) && seeds == SeedsOf(rows[..i])
      invariant forall task :: task in indices <==> task in order
      invariant forall task :: task in indices ==> indices[task] == Indices(rows[..i], task)
    {
      var row := rows[i];
      assert rows[..i + 1][..i] == rows[..i];
      IndicesElsewhere(rows[..i], row.task);
      if row.task !in indices {
        order := order + [row.task];
        indices := indices[row.task := {}];
      }
      if row.index in indices[row.task] {
        RepeatStays(rows, i + 1);
        return false, [], map[], map[];
      }
      indices := indices[row.task := indices[row.task] + {row.index}];
      if row.rng.Some? {
        seeds := seeds[(row.task, row.index) := row.rng.value];
      }
      i := i + 1;
    }
    assert rows[..|rows|] == rows;
    return true, order, indices, seeds;
  }

  /** The two checks on the indices: equal counts, then contiguity. */
  method CheckIndices(order: seq<string>, indices: map<string, set<nat>>, n: nat) returns (failure: Option<Failure>)
    requires forall t :: 0 <= t < |order| ==> order[t] in indices
    ensures failure.None? <==> forall t :: 0 <= t < |order| ==> indices[order[t]] == Range(n)
  {
    var t := 0;
    while t < |order|
      invariant t <= |order|
    {
      if |indices[order[t]]| != n {
        RangeSize(n);
        return Some(UnequalCounts);
      }
      t := t + 1;
    }
    t := 0;
    while t < |order|
      invariant t <= |order| && forall k :: 0 <= k < t ==> indices[order[k]] == Range(n)
    {
      if indices[order[t]] != Range(n) { return Some(NotContiguous); }
      t := t + 1;
    }
    return None;
  }

  lemma AcceptableIff(rows: seq<Trial>, order: seq<string>, indices: map<string, set<nat>>, n: nat)
    requires Unrepeated(rows) && order == Order(rows) && order != []
    requires forall t :: 0 <= t < |order| ==> order[t] in indices && indices[order[t]] == Indices(rows, order[t])
    requires n == |indices[order[0]]|
    ensures n == Repeats(rows)
    ensures Acceptable(rows) <==> forall t :: 0 <= t < |order| ==> indices[order[t]] == Range(n)
  {
    assert forall t :: 0 <= t < |order| ==> Indices(rows, Order(rows)[t]) == indices[order[t]];
  }

  /** `seed_plan_from_provenance`, up to the constructor's own validation. */
  method FromProvenance(rows: seq<Trial>, id: string, version: string) returns (result: Result<Plan>)
    ensures result.Ok? <==> Acceptable(rows)
    ensures result.Ok? ==> result.value == Rebuilt(rows, id, version)
  {
    var unrepeated, order, indices, seeds := ScanRows(rows);
    if !unrepeated { return Err(DuplicateRow); }
    if order == [] { return Err(NoRows); }
    var n := |indices[order[0]]|;
    var failure := CheckIndices(order, indices, n);
    AcceptableIff(rows, order, indices, n);
    if failure.Some? { return Err(failure.value); }
    return Ok(Plan(id, version, order, n, SeedPairs(order, seeds, n)));
  }

  lemma {:induction false} RangeSize(n: nat)
    ensures |Range(n)| == n && forall i: nat :: i in Range(n) <==> i < n
  {
    if n > 0 {
      RangeSize(n - 1);
    }
  }

  lemma {:induction false} IndicesElsewhere(rows: seq<Trial>, task: string)
    ensures task in Order(rows) <==> Indices(rows, task) != {}
  {
    if rows != [] {
      IndicesElsewhere(rows[..|rows| - 1], task);
    }
  }

  lemma {:induction false} RepeatStays(rows: seq<Trial>, i: nat)
    requires i <= |rows| && !Unrepeated(rows[..i])
    ensures !Unrepeated(rows)
    decreases |rows|
  {
    if i < |rows| {
      assert rows[..|rows| - 1][..i] == rows[..i];
      RepeatStays(rows[..|rows| - 1], i);
    } else {
      assert rows[..i] == rows;
    }
  }

  // ---------------------------------------------------------------- what the rebuilt plan records

  lemma {:induction false} IndicesMember(rows: seq<Trial>, task: string, index: nat)
    ensures index in Indices(rows, task) <==> exists k :: 0 <= k < |rows| && rows[k].task == task && rows[k].index == index
  {
    if rows != [] {
      IndicesMember(rows[..|rows| - 1], task, index);
    }
  }

  lemma {:induction false} OrderMember(rows: seq<Trial>, task: string)
    ensures task in Order(rows) <==> exists k :: 0 <= k < |rows| && rows[k].task == task
    ensures NoRepeats(Order(rows))
  {
    if rows != [] {
      OrderMember(rows[..|rows| - 1], task);
      OrderMember(rows[..|rows| - 1], rows[|rows| - 1].task);
    }
  }

  /** Without repeats, the recorded seed of a slot is that of its only row. */
  lemma {:induction false} SeedsAreRows(rows: seq<Trial>, k: nat)
    requires Unrepeated(rows) && k < |rows|
    ensures rows[k].rng == if (rows[k].task, rows[k].index) in SeedsOf(rows) then Some(SeedsOf(rows)[(rows[k].task, rows[k].index)]) else None
  {
    var init, last := rows[..|rows| - 1], rows[|rows| - 1];
    if k < |rows| - 1 {
      SeedsAreRows(init, k);
      IndicesMember(init, last.task, last.index);
      assert init[k] == rows[k];
    } else {
      IndicesMember(init, last.task, last.index);
      SeedsFromRows(init, last.task, last.index);
    }
  }

  lemma {:induction false} SeedsFromRows(rows: seq<Trial>, task: string, index: nat)
    ensures (task, index) in SeedsOf(rows) ==> exists k :: 0 <= k < |rows| && rows[k].task == task && rows[k].index == index
  {
    if rows != [] {
      SeedsFromRows(rows[..|rows| - 1], task, index);
    }
  }

  lemma {:induction false} PairsForMember(task: string, seeds: map<(string, nat), int>, upTo: nat, k: nat) returns (i: nat)
    requires k < |PairsFor(task, seeds, upTo)|
    ensures i < upTo && (task, i) in seeds && PairsFor(task, seeds, upTo)[k] == (Keyed(task, i), seeds[(task, i)])
  {
    if k < |PairsFor(task, seeds, upTo - 1)| {
      i := PairsForMember(task, seeds, upTo - 1, k);
    } else {
      i := upTo - 1;
    }
  }

  lemma {:induction false} PairsForHas(task: string, seeds: map<(string, nat), int>, upTo: nat, i: nat)
    requires i < upTo && (task, i) in seeds
    ensures (Keyed(task, i), seeds[(task, i)]) in PairsFor(task, seeds, upTo)
  {
    if i < upTo - 1 {
      PairsForHas(task, seeds, upTo - 1, i);
    }
  }

  lemma {:induction false} PairsForDistinct(task: string, seeds: map<(string, nat), int>, upTo: nat)
    ensures NoRepeats(KeysOf(PairsFor(task, seeds, upTo)))
  {
    if upTo > 0 {
      PairsForDistinct(task, seeds, upTo - 1);
      var before, all := PairsFor(task, seeds, upTo - 1), PairsFor(task, seeds, upTo);
      forall a, b | 0 <= a < b < |all|
        ensures KeysOf(all)[a] != KeysOf(all)[b]
      {
        if b == |before| {
          var i := PairsForMember(task, seeds, upTo - 1, a);
          assert all[a] == before[a];
          if Keyed(task, i) == Keyed(task, upTo - 1) { KeysDistinct(task, i, task, upTo - 1); }
        } else {
          assert KeysOf(before)[a] != KeysOf(before)[b];
        }
      }
    }
  }

  lemma {:induction false} SeedPairsMember(tasks: seq<string>, seeds: map<(string, nat), int>, n: nat, k: nat) returns (t: nat, i: nat)
    requires k < |SeedPairs(tasks, seeds, n)|
    ensures t < |tasks| && i < n && (tasks[t], i) in seeds
    ensures SeedPairs(tasks, seeds, n)[k] == (Keyed(tasks[t], i), seeds[(tasks[t], i)])
  {
    var before := SeedPairs(tasks[..|tasks| - 1], seeds, n);
    if k < |before| {
      t, i := SeedPairsMember(tasks[..|tasks| - 1], seeds, n, k);
    } else {
      t := |tasks| - 1;
      i := PairsForMember(tasks[t], seeds, n, k - |before|);
    }
  }

  lemma {:induction false} SeedPairsHas(tasks: seq<string>, seeds: map<(string, nat), int>, n: nat, t: nat, i: nat)
    requires t < |tasks| && i < n && (tasks[t], i) in seeds
    ensures (Keyed(tasks[t], i), seeds[(tasks[t], i)]) in SeedPairs(tasks, seeds, n)
  {
    if t < |tasks| - 1 {
      SeedPairsHas(tasks[..|tasks| - 1], seeds, n, t, i);
    } else {
      PairsForHas(tasks[t], seeds, n, i);
    }
  }

  lemma {:induction false} SeedPairsDistinct(tasks: seq<string>, seeds: map<(string, nat), int>, n: nat)
    requires NoRepeats(tasks)
    ensures NoRepeats(KeysOf(SeedPairs(tasks, seeds, n)))
  {
    if tasks != [] {
      var init, task := tasks[..|tasks| - 1], tasks[|tasks| - 1];
      var before, own, all := SeedPairs(init, seeds, n), PairsFor(task, seeds, n), SeedPairs(tasks, seeds, n);
      SeedPairsDistinct(init, seeds, n);
      PairsForDistinct(task, seeds, n);
      forall a, b | 0 <= a < b < |all|
        ensures KeysOf(all)[a] != KeysOf(all)[b]
      {
        if b < |before| {
          assert KeysOf(before)[a] != KeysOf(before)[b];
        } else if a >= |before| {
          assert KeysOf(own)[a - |before|] != KeysOf(own)[b - |before|];
        } else {
          OtherTask(init, task, seeds, n, a, b - |before|);
        }
      }
    }
  }

  lemma OtherTask(init: seq<string>, task: string, seeds: map<(string, nat), int>, n: nat, a: nat, b: nat)
    requires NoRepeats(init + [task])
    requires a < |SeedPairs(init, seeds, n)| && b < |PairsFor(task, seeds, n)|
    ensures SeedPairs(init, seeds, n)[a].0 != PairsFor(task, seeds, n)[b].0
  {
    var t, i := SeedPairsMember(init, seeds, n, a);
    var j := PairsForMember(task, seeds, n, b);
    assert (init + [task])[t] != (init + [task])[|init|];
    if Keyed(init[t], i) == Keyed(task, j) {
      KeysDistinct(init[t], i, task, j);
    }
  }

  /** Looking a slot up in the rebuilt pairs finds what the rows recorded, because keys are injective. */
  lemma RebuiltLookup(tasks: seq<string>, seeds: map<(string, nat), int>, n: nat, t: nat, i: nat)
    requires t < |tasks| && i < n
    ensures Lookup(SeedPairs(tasks, seeds, n), Keyed(tasks[t], i)) ==
              if (tasks[t], i) in seeds then Some(seeds[(tasks[t], i)]) else None
  {
    var pairs, key := SeedPairs(tasks, seeds, n), Keyed(tasks[t], i);
    LookupFinds(pairs, key);
    if Lookup(pairs, key).Some? {
      var k :| 0 <= k < |pairs| && pairs[k] == (key, Lookup(pairs, key).value);
      var u, j := SeedPairsMember(tasks, seeds, n, k);
      KeysDistinct(tasks[u], j, tasks[t], i);
    } else if (tasks[t], i) in seeds {
      SeedPairsHas(tasks, seeds, n, t, i);
    }
  }

  // ---------------------------------------------------------------- main results

  /** The plan rebuilt from accepted rows always passes its own validation. */
  lemma RebuiltIsValid(rows: seq<Trial>, id: string, version: string)
    requires Acceptable(rows)
    ensures Valid(Rebuilt(rows, id, version))
    ensures Rebuilt(rows, id, version).id == id && Rebuilt(rows, id, version).version == version
  {
    var plan, order, seeds := Rebuilt(rows, id, version), Order(rows), SeedsOf(rows);
    OrderMember(rows, order[0]);
    IndicesElsewhere(rows, order[0]);
    RangeSize(plan.seeds);
    SeedPairsDistinct(order, seeds, plan.seeds);
    forall k | 0 <= k < |plan.rngSeeds|
      ensures IsSlot(plan, plan.rngSeeds[k].0)
    {
      var t, i := SeedPairsMember(order, seeds, plan.seeds, k);
    }
  }

  lemma RowIsTrial(rows: seq<Trial>, id: string, version: string, k: nat)
    requires Acceptable(rows) && k < |rows|
    ensures rows[k] in Trials(Rebuilt(rows, id, version))
  {
    var plan, order, row := Rebuilt(rows, id, version), Order(rows), rows[k];
    OrderMember(rows, row.task);
    var t :| 0 <= t < |order| && order[t] == row.task;
    assert Indices(rows, order[t]) == Range(plan.seeds);
    IndicesMember(rows, row.task, row.index);
    RangeSize(plan.seeds);
    SeedsAreRows(rows, k);
    RebuiltLookup(order, SeedsOf(rows), plan.seeds, t, row.index);
    assert TaskAmong(plan, |plan.tasks|, row.task);
    TrialsMember(plan, |plan.tasks|, row);
  }

  lemma TrialIsRow(rows: seq<Trial>, id: string, version: string, trial: Trial) returns (k: nat)
    requires Acceptable(rows) && trial in Trials(Rebuilt(rows, id, version))
    ensures k < |rows| && rows[k] == trial
  {
    var plan, order := Rebuilt(rows, id, version), Order(rows);
    TrialsMember(plan, |plan.tasks|, trial);
    var t :| 0 <= t < |order| && order[t] == trial.task;
    assert Indices(rows, order[t]) == Range(plan.seeds);
    RangeSize(plan.seeds);
    IndicesMember(rows, trial.task, trial.index);
    k :| 0 <= k < |rows| && rows[k].task == trial.task && rows[k].index == trial.index;
    SeedsAreRows(rows, k);
    RebuiltLookup(order, SeedsOf(rows), plan.seeds, t, trial.index);
  }

  /** Accepted provenance rows, in any order, are as a set exactly the trials of the rebuilt plan. */
  lemma RowsAreTrials(rows: seq<Trial>, id: string, version: string, row: Trial)
    requires Acceptable(rows)
    ensures row in rows <==> row in Trials(Rebuilt(rows, id, version))
  {
    if row in rows {
      var k :| 0 <= k < |rows| && rows[k] == row;
      RowIsTrial(rows, id, version, k);
    }
    if row in Trials(Rebuilt(rows, id, version)) {
      var k := TrialIsRow(rows, id, version, row);
    }
  }

  /** The trials of one task, one per index. */
  predicate IsBlock(block: seq<Trial>, task: string) {
    forall i :: 0 <= i < |block| ==> block[i].task == task && block[i].index == i
  }

  lemma {:induction false} BlockFacts(before: seq<Trial>, block: seq<Trial>, task: string)
    requires task !in Order(before) && IsBlock(block, task) && Unrepeated(before)
    ensures Order(before + block) == if block == [] then Order(before) else Order(before) + [task]
    ensures Unrepeated(before + block)
    ensures forall i :: i in Indices(before + block, task) ==> i < |block|
    decreases |block|
  {
    if block == [] {
      assert before + block == before;
      IndicesElsewhere(before, task);
    } else {
      var init := block[..|block| - 1];
      BlockFacts(before, init, task);
      assert (before + block)[..|before + block| - 1] == before + init;
    }
  }

  lemma {:induction false} TrialsOrder(plan: Plan, t: nat)
    requires t <= |plan.tasks| && NoRepeats(plan.tasks) && plan.seeds >= 1
    ensures Order(TrialsUpTo(plan, t)) == plan.tasks[..t] && Unrepeated(TrialsUpTo(plan, t))
  {
    if t > 0 {
      TrialsOrder(plan, t - 1);
      LastIsNew(plan.tasks, t);
      OneMoreTask(plan, t, TrialsUpTo(plan, t - 1), TaskTrials(plan, plan.tasks[t - 1], plan.seeds));
    }
  }

  lemma OneMoreTask(plan: Plan, t: nat, before: seq<Trial>, block: seq<Trial>)
    requires 0 < t <= |plan.tasks| && |block| >= 1
    requires block == TaskTrials(plan, plan.tasks[t - 1], plan.seeds)
    requires Order(before) == plan.tasks[..t - 1] && Unrepeated(before) && plan.tasks[t - 1] !in plan.tasks[..t - 1]
    ensures Order(before + block) == plan.tasks[..t] && Unrepeated(before + block)
  {
    TaskTrialsBlock(plan, plan.tasks[t - 1]);
    MoreRows(before, block, plan.tasks[..t - 1], plan.tasks[t - 1]);
    assert plan.tasks[..t] == plan.tasks[..t - 1] + [plan.tasks[t - 1]];
  }

  lemma MoreRows(before: seq<Trial>, block: seq<Trial>, tasks: seq<string>, task: string)
    requires IsBlock(block, task) && block != [] && Order(before) == tasks && Unrepeated(before) && task !in tasks
    ensures Order(before + block) == tasks + [task] && Unrepeated(before + block)
  {
    BlockFacts(before, block, task);
  }

  lemma LastIsNew(tasks: seq<string>, t: nat)
    requires 0 < t <= |tasks| && NoRepeats(tasks)
    ensures tasks[t - 1] !in tasks[..t - 1]
  {
  }

  lemma TaskTrialsBlock(plan: Plan, task: string)
    ensures IsBlock(TaskTrials(plan, task, plan.seeds), task)
  {
  }

  lemma TrialsIndices(plan: Plan, t: nat, task: string)
    requires t <= |plan.tasks| && TaskAmong(plan, t, task)
    ensures Indices(TrialsUpTo(plan, t), task) == Range(plan.seeds)
  {
    RangeSize(plan.seeds);
    forall i: nat
      ensures i in Indices(TrialsUpTo(plan, t), task) <==> i < plan.seeds
    {
      IndicesMember(TrialsUpTo(plan, t), task, i);
      TrialsMember(plan, t, Trial(task, i, Lookup(plan.rngSeeds, Keyed(task, i))));
      if i in Indices(TrialsUpTo(plan, t), task) {
        var k :| 0 <= k < |TrialsUpTo(plan, t)| && TrialsUpTo(plan, t)[k].task == task && TrialsUpTo(plan, t)[k].index == i;
        TrialsMember(plan, t, TrialsUpTo(plan, t)[k]);
      }
    }
  }

  /** Rebuilding a valid plan from its own trials succeeds and gives a plan with the same tasks, the same number
      of seeds and the same trials in the same order. */
  lemma PlanRoundTrip(plan: Plan)
    requires Valid(plan)
    ensures Acceptable(Trials(plan))
    ensures var again := Rebuilt(Trials(plan), plan.id, plan.version);
            again.tasks == plan.tasks && again.seeds == plan.seeds && Trials(again) == Trials(plan)
  {
    var n := |plan.tasks|;
    TrialsOrder(plan, n);
    assert plan.tasks[..n] == plan.tasks;
    forall t | 0 <= t < n
      ensures Indices(Trials(plan), plan.tasks[t]) == Range(plan.seeds)
    {
      assert TaskAmong(plan, n, plan.tasks[t]);
      TrialsIndices(plan, n, plan.tasks[t]);
    }
    RangeSize(plan.seeds);
    SameTrials(plan, Rebuilt(Trials(plan), plan.id, plan.version), n);
  }

  lemma {:induction false} SameTrials(plan: Plan, again: Plan, t: nat)
    requires Acceptable(Trials(plan)) && again == Rebuilt(Trials(plan), plan.id, plan.version)
    requires again.tasks == plan.tasks && again.seeds == plan.seeds && t <= |plan.tasks|
    ensures TrialsUpTo(again, t) == TrialsUpTo(plan, t)
  {
    if t > 0 {
      SameTrials(plan, again, t - 1);
      var task := plan.tasks[t - 1];
      forall i | 0 <= i < plan.seeds
        ensures TaskTrials(again, task, plan.seeds)[i] == TaskTrials(plan, task, plan.seeds)[i]
      {
        var trial := TaskTrials(plan, task, plan.seeds)[i];
        assert TaskAmong(plan, |plan.tasks|, task);
        TrialsMember(plan, |plan.tasks|, trial);
        RowsAreTrials(Trials(plan), plan.id, plan.version, trial);
        TrialsMember(again, |again.tasks|, trial);
      }
    }
  }
}
