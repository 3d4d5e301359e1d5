/** The two-level mean of an evaluation matrix: seeds within a task, then tasks, under a completeness policy. */
module NestedMean {

  datatype Option<+T> = None | Some(value: T)

  datatype Result<+T> = Ok(value: T) | Err(why: Failure)

  datatype Failure = ZeroDivision | DuplicateTask | UnplannedTask | TooManyRows

  // ---------------------------------------------------------------- one level

  datatype Input = Input(value: Option<real>, applicable: bool)

  datatype Status = OK | MissingData | NotApplicable | ZeroDenominator

  datatype Output = Output(status: Status, value: Option<real>, total: nat, applicable: nat, present: nat)

  datatype Reduction = Mean | Sum

  datatype Config = Config(reduction: Reduction, propagate: bool, zeroIsError: bool)

  function Applicable(inputs: seq<Input>): seq<Input> {
    if inputs == [] then []
    else (if inputs[0].applicable then [inputs[0]] else []) + Applicable(inputs[1..])
  }

  /** The values of the applicable inputs that have one. */
  function Present(inputs: seq<Input>): seq<real> {
    if inputs == [] then []
    else (if inputs[0].applicable && inputs[0].value.Some? then [inputs[0].value.value] else []) + Present(inputs[1..])
  }

  function Total(values: seq<real>): real {
    if values == [] then 0.0 else values[0] + Total(values[1..])
  }

  /** `aggregate`. */
  function Aggregate(config: Config, inputs: seq<Input>): Result<Output> {
    var n, applicable, present := |inputs|, |Applicable(inputs)|, Present(inputs);
    if applicable == 0 then Ok(Output(NotApplicable, None, n, applicable, |present|))
    else if |present| < applicable && config.propagate then Ok(Output(MissingData, None, n, applicable, |present|))
    else if config.reduction.Sum? then Ok(Output(OK, Some(Total(present)), n, applicable, |present|))
    else if present == [] then
      if config.zeroIsError then Err(ZeroDivision) else Ok(Output(ZeroDenominator, None, n, applicable, 0))
    else Ok(Output(OK, Some(Total(present) / |present| as real), n, applicable, |present|))
  }

  lemma {:induction false} PresentIsApplicable(inputs: seq<Input>)
    ensures |Present(inputs)| <= |Applicable(inputs)| <= |inputs|
    ensures Applicable(inputs) == [] <==> forall i :: 0 <= i < |inputs| ==> !inputs[i].applicable
    ensures |Present(inputs)| == |Applicable(inputs)| <==>
              forall i :: 0 <= i < |inputs| && inputs[i].applicable ==> inputs[i].value.Some?
    ensures Present(inputs) == [] <==> forall i :: 0 <= i < |inputs| && inputs[i].applicable ==> inputs[i].value.None?
  {
    if inputs != [] {
      PresentIsApplicable(inputs[1..]);
      assert forall i :: 0 < i < |inputs| ==> inputs[i] == inputs[1..][i - 1];
    }
  }

  // ---------------------------------------------------------------- rows and tasks

  /** A row is scored, or in exactly one of three unscored states. */
  datatype RowValue = Scored(value: real) | Failed | Missing | Invalid {
    /** `to_aggregation_input`. */
    function ToInput(): Input {
      match this
      case Scored(v) => Input(Some(v), true)
      case Invalid => Input(None, false)
      case _ => Input(None, true)
    }
  }

  datatype Policy = Policy(skip: bool, maxSkipFraction: real) {
    /** `within_tolerance`. */
    predicate Tolerates(skipped: nat, planned: nat) {
      planned == 0 || skipped as real / planned as real <= maxSkipFraction
    }

    /** What the aggregation config of an evaluation plan must say. */
    function MeanConfig(): Config {
      Config(Mean, !skip, false)
    }
  }

  datatype Plan = Plan(tasks: seq<string>, seeds: nat, policy: Policy)

  datatype TaskRows = TaskRows(task: string, rows: seq<RowValue>)

  function Inputs(rows: seq<RowValue>): seq<Input> {
    seq(|rows|, i requires 0 <= i < |rows| => rows[i].ToInput())
  }

  /** What a task hands to the outer level. */
  function TaskInput(policy: Policy, rows: seq<RowValue>): Input {
    var inner := Aggregate(policy.MeanConfig(), Inputs(rows)).value;
    if inner.status.OK? then Input(inner.value, true) else Input(None, !inner.status.NotApplicable?)
  }

  function TaskInputs(policy: Policy, vectors: seq<seq<RowValue>>): seq<Input> {
    seq(|vectors|, t requires 0 <= t < |vectors| => TaskInput(policy, vectors[t]))
  }

  function Flatten(vectors: seq<seq<RowValue>>): seq<RowValue> {
    if vectors == [] then [] else Flatten(vectors[..|vectors| - 1]) + vectors[|vectors| - 1]
  }

  function Count(rows: seq<RowValue>, p: RowValue -> bool): nat {
    if rows == [] then 0 else (if p(rows[0]) then 1 else 0) + Count(rows[1..], p)
  }

  datatype Accounting = Accounting(present: nat, missing: nat, failed: nat, invalid: nat)

  /** `_row_counts`. */
  function RowCounts(rows: seq<RowValue>): Accounting {
    Accounting(Count(rows, (r: RowValue) => r.Scored?), Count(rows, (r: RowValue) => r.Missing?),
               Count(rows, (r: RowValue) => r.Failed?), Count(rows, (r: RowValue) => r.Invalid?))
  }

  /** `enforce_skip_tolerance`. */
  function EnforceTolerance(policy: Policy, output: Output, skipped: nat, planned: nat): Output {
    if !policy.skip || policy.Tolerates(skipped, planned) then output else output.(value := None, status := MissingData)
  }

  datatype Evaluation = Evaluation(output: Output, accounting: Accounting)

  /** The two-level mean of complete row vectors. */
  function MeanOf(policy: Policy, vectors: seq<seq<RowValue>>): Evaluation {
    Summarize(policy, Flatten(vectors), TaskInputs(policy, vectors))
  }

  /** The outer level: the tasks are aggregated, all rows are counted, and the tolerance is enforced. */
  function Summarize(policy: Policy, rows: seq<RowValue>, inputs: seq<Input>): Evaluation {
    var outer := Aggregate(policy.MeanConfig(), inputs).value;
    var counts := RowCounts(rows);
    Evaluation(EnforceTolerance(policy, outer, counts.missing + counts.failed + counts.invalid, |rows|), counts)
  }

  // ---------------------------------------------------------------- reconciling observed tasks with the plan

  predicate Observes(observed: seq<TaskRows>, task: string) {
    exists i :: 0 <= i < |observed| && observed[i].task == task
  }

  predicate NoDuplicates(observed: seq<TaskRows>) {
    forall i, j :: 0 <= i < j < |observed| ==> observed[i].task != observed[j].task
  }

  /** The observed rows of a task; none when it was not observed. */
  function RowsFor(observed: seq<TaskRows>, task: string): (rows: seq<RowValue>)
    ensures NoDuplicates(observed) ==> forall i :: 0 <= i < |observed| && observed[i].task == task ==> rows == observed[i].rows
    ensures !Observes(observed, task) ==> rows == []
  {
    if observed == [] then []
    else if observed[|observed| - 1].task == task then observed[|observed| - 1].rows
    else
      var rows := RowsFor(observed[..|observed| - 1], task);
      assert NoDuplicates(observed) ==> NoDuplicates(observed[..|observed| - 1]);
      rows
  }

  /** `completed_rows`: a task that is short of rows is filled up with missing ones. */
  function Completed(rows: seq<RowValue>, seeds: nat): (complete: seq<RowValue>)
    requires |rows| <= seeds
    ensures |complete| == seeds
  {
    rows + seq(seeds - |rows|, _ => Missing)
  }

  predicate Acceptable(plan: Plan, observed: seq<TaskRows>) {
    && NoDuplicates(observed)
    && (forall i :: 0 <= i < |observed| ==> observed[i].task in plan.tasks)
    && (forall t :: 0 <= t < |plan.tasks| ==> |RowsFor(observed, plan.tasks[t])| <= plan.seeds)
  }

  /** One complete row vector per planned task, in planned order. */
  function Vectors(plan: Plan, observed: seq<TaskRows>): (vectors: seq<seq<RowValue>>)
    requires Acceptable(plan, observed)
    ensures |vectors| == |plan.tasks| && forall t :: 0 <= t < |vectors| ==> |vectors[t]| == plan.seeds
  {
    seq(|plan.tasks|, t requires 0 <= t < |plan.tasks| => Completed(RowsFor(observed, plan.tasks[t]), plan.seeds))
  }

  /** The observed tasks by their hash, unless one is observed twice. */
  method IndexByTask(observed: seq<TaskRows>) returns (byTask: map<string, seq<RowValue>>, unique: bool)
    ensures unique <==> NoDuplicates(observed)
    ensures unique ==> forall task :: task in byTask <==> Observes(observed, task)
    ensures unique ==> forall task :: task in byTask ==> byTask[task] == RowsFor(observed, task)
  {
    byTask := map[];
    var i := 0;
    while i < |observed|
      invariant i <= |observed|
      invariant NoDuplicates(observed[..i])
      invariant forall task :: task in byTask ==> exists j :: 0 <= j < i && observed[j].task == task
      invariant forall j :: 0 <= j < i ==> observed[j].task in byTask && byTask[observed[j].task] == observed[j].rows
    {
      if observed[i].task in byTask { return byTask, false; }
      byTask := byTask[observed[i].task := observed[i].rows];
      i := i + 1;
    }
    assert observed[..|observed|] == observed;
    return byTask, true;
  }

  method AllPlanned(plan: Plan, observed: seq<TaskRows>) returns (planned: bool)
    ensures planned <==> forall i :: 0 <= i < |observed| ==> observed[i].task in plan.tasks
  {
    var i := 0;
    while i < |observed|
      invariant i <= |observed|
      invariant forall j :: 0 <= j < i ==> observed[j].task in plan.tasks
    {
      if observed[i].task !in plan.tasks { return false; }
      i := i + 1;
    }
    return true;
  }

  function Found(byTask: map<string, seq<RowValue>>, task: string): seq<RowValue> {
    if task in byTask then byTask[task] else []
  }

  /** The vectors are the completed rows of the first tasks, which fit the plan. */
  predicate Collected(plan: Plan, byTask: map<string, seq<RowValue>>, vectors: seq<seq<RowValue>>) {
    vectors == [] ||
    var last := |vectors| - 1;
    && last < |plan.tasks| && Collected(plan, byTask, vectors[..last])
    && |Found(byTask, plan.tasks[last])| <= plan.seeds
    && vectors[last] == Completed(Found(byTask, plan.tasks[last]), plan.seeds)
  }

  lemma {:induction false} CollectedAt(plan: Plan, byTask: map<string, seq<RowValue>>, vectors: seq<seq<RowValue>>)
    requires Collected(plan, byTask, vectors)
    ensures |vectors| <= |plan.tasks|
    ensures forall t :: 0 <= t < |vectors| ==>
              |Found(byTask, plan.tasks[t])| <= plan.seeds && vectors[t] == Completed(Found(byTask, plan.tasks[t]), plan.seeds)
  {
    if vectors != [] {
      CollectedAt(plan, byTask, vectors[..|vectors| - 1]);
    }
  }

  /** The loop over the planned tasks: all completed rows, and what each task hands to the outer level. */
  method CollectRows(plan: Plan, byTask: map<string, seq<RowValue>>)
    returns (fits: bool, ghost vectors: seq<seq<RowValue>>, rows: seq<RowValue>, inputs: seq<Input>)
    ensures fits <==> forall t :: 0 <= t < |plan.tasks| ==> |Found(byTask, plan.tasks[t])| <= plan.seeds
    ensures fits ==> |vectors| == |plan.tasks|
                     && forall t :: 0 <= t < |vectors| ==> vectors[t] == Completed(Found(byTask, plan.tasks[t]), plan.seeds)
    ensures fits ==> rows == Flatten(vectors) && inputs == TaskInputs(plan.policy, vectors)
  {
    vectors, rows, inputs := [], [], [];
    var t := 0;
    while t < |plan.tasks|
      invariant |vectors| == t && Collected(plan, byTask, vectors)
      invariant rows == Flatten(vectors) && inputs == TaskInputs(plan.policy, vectors)
    {
      var found := Found(byTask, plan.tasks[t]);
      if |found| > plan.seeds { return false, [], [], []; }
      var completed := Completed(found, plan.seeds);
      OneMoreVector(plan.policy, vectors, completed);
      inputs := inputs + [TaskInput(plan.policy, completed)];
      rows := rows + completed;
      assert (vectors + [completed])[..t] == vectors;
      vectors := vectors + [completed];
      t := t + 1;
    }
    CollectedAt(plan, byTask, vectors);
    return true, vectors, rows, inputs;
  }

  /** `unweighted_task_mean`. */
  method UnweightedTaskMean(plan: Plan, observed: seq<TaskRows>) returns (result: Result<Evaluation>)
    ensures result.Ok? <==> Acceptable(plan, observed)
    ensures result.Ok? ==> result.value == MeanOf(plan.policy, Vectors(plan, observed))
    // A defined value is the unweighted mean over the tasks of the means of their scored rows.
    ensures result.Ok? && result.value.output.value.Some? ==>
              var means := TaskMeans(Vectors(plan, observed));
              means != [] && Times(result.value.output.value.value, |means|) == Total(means)
  {
    var byTask, unique := IndexByTask(observed);
    if !unique { return Err(DuplicateTask); }
    var planned := AllPlanned(plan, observed);
    if !planned { return Err(UnplannedTask); }
    assert forall task :: Found(byTask, task) == RowsFor(observed, task);
    ghost var vectors;
    var fits, rows, inputs;
    fits, vectors, rows, inputs := CollectRows(plan, byTask);
    if !fits { return Err(TooManyRows); }
    assert vectors == Vectors(plan, observed);
    if MeanOf(plan.policy, vectors).output.value.Some? {
      MeanOverTasks(plan.policy, vectors);
    }
    return Ok(Summarize(plan.policy, rows, inputs));
  }

  lemma OneMoreVector(policy: Policy, vectors: seq<seq<RowValue>>, rows: seq<RowValue>)
    ensures Flatten(vectors + [rows]) == Flatten(vectors) + rows
    ensures TaskInputs(policy, vectors + [rows]) == TaskInputs(policy, vectors) + [TaskInput(policy, rows)]
  {
    assert (vectors + [rows])[..|vectors|] == vectors;
  }

  // ---------------------------------------------------------------- when it is defined

  predicate HasScored(vectors: seq<seq<RowValue>>) {
    exists t, s :: 0 <= t < |vectors| && 0 <= s < |vectors[t]| && vectors[t][s].Scored?
  }

  predicate NoneLost(vectors: seq<seq<RowValue>>) {
    forall t, s :: 0 <= t < |vectors| && 0 <= s < |vectors[t]| ==> !vectors[t][s].Missing? && !vectors[t][s].Failed?
  }

  predicate RowScored(rows: seq<RowValue>) {
    exists s :: 0 <= s < |rows| && rows[s].Scored?
  }

  predicate RowsLost(rows: seq<RowValue>) {
    exists s :: 0 <= s < |rows| && (rows[s].Missing? || rows[s].Failed?)
  }

  lemma TaskInputShape(policy: Policy, rows: seq<RowValue>)
    ensures var input := TaskInput(policy, rows);
            && (input.value.Some? <==> RowScored(rows) && (policy.skip || !RowsLost(rows)))
            && (input.applicable <==> RowScored(rows) || RowsLost(rows))
            && (input.value.Some? ==> input.value.value == Total(Present(Inputs(rows))) / |Present(Inputs(rows))| as real
                                      && Present(Inputs(rows)) != [])
  {
    var inputs := Inputs(rows);
    PresentIsApplicable(inputs);
    assert forall i :: 0 <= i < |rows| ==> inputs[i] == rows[i].ToInput();
    assert RowScored(rows) <==> Present(inputs) != [];
    assert Applicable(inputs) != [] <==> RowScored(rows) || RowsLost(rows);
    assert |Present(inputs)| == |Applicable(inputs)| <==> !RowsLost(rows);
  }

  /** The mean is defined exactly when some row is scored and, when missing data propagates, no row is missing
      or failed, or, when it is skipped, the share of unscored rows is within tolerance. */
  lemma DefinedIff(policy: Policy, vectors: seq<seq<RowValue>>)
    ensures var e := MeanOf(policy, vectors);
            var unscored := e.accounting.missing + e.accounting.failed + e.accounting.invalid;
            && (e.output.value.Some? <==>
                  && HasScored(vectors)
                  && (if policy.skip then policy.Tolerates(unscored, |Flatten(vectors)|) else NoneLost(vectors)))
            && (e.output.value.Some? <==> e.output.status.OK?)
  {
    var inputs := TaskInputs(policy, vectors);
    OuterShape(policy, vectors, inputs);
    PresentIsApplicable(inputs);
  }

  lemma OuterShape(policy: Policy, vectors: seq<seq<RowValue>>, inputs: seq<Input>)
    requires inputs == TaskInputs(policy, vectors)
    ensures (exists t :: 0 <= t < |inputs| && inputs[t].applicable && inputs[t].value.Some?) <==>
              exists t :: 0 <= t < |vectors| && RowScored(vectors[t]) && (policy.skip || !RowsLost(vectors[t]))
    ensures HasScored(vectors) <==> exists t :: 0 <= t < |vectors| && RowScored(vectors[t])
    ensures !policy.skip ==>
              ((forall t :: 0 <= t < |inputs| && inputs[t].applicable ==> inputs[t].value.Some?) <==> NoneLost(vectors))
  {
    forall t | 0 <= t < |vectors|
      ensures && (inputs[t].value.Some? <==> RowScored(vectors[t]) && (policy.skip || !RowsLost(vectors[t])))
              && (inputs[t].applicable <==> RowScored(vectors[t]) || RowsLost(vectors[t]))
    {
      TaskInputShape(policy, vectors[t]);
    }
    NoneLostByTask(vectors);
  }

  lemma NoneLostByTask(vectors: seq<seq<RowValue>>)
    ensures NoneLost(vectors) <==> forall t :: 0 <= t < |vectors| ==> !RowsLost(vectors[t])
  {
  }

  // ---------------------------------------------------------------- what it is

  /** The scores among some rows, in order. */
  function Scores(rows: seq<RowValue>): seq<real> {
    if rows == [] then [] else (if rows[0].Scored? then [rows[0].value] else []) + Scores(rows[1..])
  }

  lemma {:induction false} PresentAreScores(rows: seq<RowValue>)
    ensures Present(Inputs(rows)) == Scores(rows)
  {
    if rows != [] {
      PresentAreScores(rows[1..]);
      assert Inputs(rows)[1..] == Inputs(rows[1..]);
    }
  }

  /** For each task with a scored row, the total of its scores over their number. */
  function TaskMeans(vectors: seq<seq<RowValue>>): seq<real> {
    if vectors == [] then []
    else
      var scores := Scores(vectors[0]);
      (if scores == [] then [] else [Total(scores) / |scores| as real]) + TaskMeans(vectors[1..])
  }

  lemma {:induction false} PresentAreTaskMeans(policy: Policy, vectors: seq<seq<RowValue>>)
    requires policy.skip || NoneLost(vectors)
    ensures Present(TaskInputs(policy, vectors)) == TaskMeans(vectors)
  {
    if vectors != [] {
      NoneLostByTask(vectors);
      NoneLostByTask(vectors[1..]);
      PresentAreTaskMeans(policy, vectors[1..]);
      assert TaskInputs(policy, vectors)[1..] == TaskInputs(policy, vectors[1..]);
      TaskInputShape(policy, vectors[0]);
      PresentAreScores(vectors[0]);
      ScoredIff(vectors[0]);
    }
  }

  lemma {:induction false} ScoredIff(rows: seq<RowValue>)
    ensures Scores(rows) != [] <==> RowScored(rows)
  {
    if rows != [] {
      ScoredIff(rows[1..]);
      assert forall i :: 0 < i < |rows| ==> rows[i] == rows[1..][i - 1];
    }
  }

  /** A value added up some number of times. */
  function Times(value: real, n: nat): real {
    if n == 0 then 0.0 else Times(value, n - 1) + value
  }

  lemma {:induction false} TimesIsProduct(value: real, n: nat)
    ensures Times(value, n) == value * n as real
  {
    if n > 0 {
      TimesIsProduct(value, n - 1);
    }
  }

  lemma ValueIsMean(policy: Policy, vectors: seq<seq<RowValue>>)
    requires MeanOf(policy, vectors).output.value.Some?
    ensures var present := Present(TaskInputs(policy, vectors));
            present != [] && MeanOf(policy, vectors).output.value.value == Total(present) / |present| as real
  {
    PresentIsApplicable(TaskInputs(policy, vectors));
  }

  lemma MeanTimesCount(value: real, values: seq<real>)
    requires values != [] && value == Total(values) / |values| as real
    ensures Times(value, |values|) == Total(values)
  {
    TimesIsProduct(value, |values|);
  }

  /** A defined value is the unweighted mean over the tasks that have a scored row, of the means of their
      scored rows. */
  lemma MeanOverTasks(policy: Policy, vectors: seq<seq<RowValue>>)
    requires MeanOf(policy, vectors).output.value.Some?
    ensures var means := TaskMeans(vectors);
            means != [] && Times(MeanOf(policy, vectors).output.value.value, |means|) == Total(means)
  {
    DefinedIff(policy, vectors);
    ValueIsMean(policy, vectors);
    PresentAreTaskMeans(policy, vectors);
    MeanTimesCount(MeanOf(policy, vectors).output.value.value, TaskMeans(vectors));
  }

  function Repeated(values: seq<real>, times: nat): seq<real> {
    if times == 0 then [] else Repeated(values, times - 1) + values
  }

  lemma {:induction false} TotalConcat(a: seq<real>, b: seq<real>)
    ensures Total(a + b) == Total(a) + Total(b)
  {
    if a == [] {
      assert a + b == b;
    } else {
      assert (a + b)[1..] == a[1..] + b;
      TotalConcat(a[1..], b);
    }
  }

  lemma {:induction false} RepeatedFacts(values: seq<real>, times: nat)
    ensures |Repeated(values, times)| == times * |values|
    ensures Total(Repeated(values, times)) == times as real * Total(values)
  {
    if times > 0 {
      RepeatedFacts(values, times - 1);
      TotalConcat(Repeated(values, times - 1), values);
      OneMoreTime(times - 1, |values|, Total(values));
    }
  }

  lemma OneMoreTime(times: nat, n: nat, total: real)
    ensures (times + 1) * n == times * n + n
    ensures (times + 1) as real * total == times as real * total + total
  {
  }

  lemma ScaledQuotient(total: real, n: real, k: real)
    requires n > 0.0 && k > 0.0
    ensures k * n > 0.0 && (k * total) / (k * n) == total / n
  {
    var q := total / n;
    assert q * n == total;
    assert q * (k * n) == k * total;
  }

  lemma RepeatedMean(values: seq<real>, times: nat)
    requires values != [] && times > 0
    ensures Repeated(values, times) != []
    ensures Total(Repeated(values, times)) / |Repeated(values, times)| as real == Total(values) / |values| as real
  {
    RepeatedFacts(values, times);
    var k, n := times as real, |values| as real;
    ScaledQuotient(Total(values), n, k);
    RealProduct(times, |values|);
  }

  lemma RealProduct(a: nat, b: nat)
    ensures (a * b) as real == a as real * b as real
    ensures a > 0 && b > 0 ==> a * b > 0
  {
  }

  /** The scores of `b` are those of `a`, task by task, each list repeated some number of times. */
  predicate RepeatsByTask(a: seq<seq<RowValue>>, b: seq<seq<RowValue>>, times: seq<nat>) {
    && |a| == |b| == |times|
    && forall t :: 0 <= t < |a| ==> times[t] > 0 && Scores(b[t]) == Repeated(Scores(a[t]), times[t])
  }

  lemma {:induction false} RepeatedTaskMeans(a: seq<seq<RowValue>>, b: seq<seq<RowValue>>, times: seq<nat>)
    requires RepeatsByTask(a, b, times)
    ensures TaskMeans(a) == TaskMeans(b)
  {
    if a != [] {
      RepeatedTaskMeans(a[1..], b[1..], times[1..]);
      if Scores(a[0]) == [] {
        RepeatedFacts(Scores(a[0]), times[0]);
      } else {
        RepeatedMean(Scores(a[0]), times[0]);
      }
    }
  }

  /** No task weighs more for having more rows: repeating a task's scored rows in equal proportion changes no
      defined mean. */
  lemma RowCountsDoNotWeigh(policy: Policy, a: seq<seq<RowValue>>, b: seq<seq<RowValue>>, times: seq<nat>)
    requires RepeatsByTask(a, b, times)
    requires MeanOf(policy, a).output.value.Some? && MeanOf(policy, b).output.value.Some?
    ensures MeanOf(policy, a).output.value == MeanOf(policy, b).output.value
  {
    var x, y := MeanOf(policy, a).output.value.value, MeanOf(policy, b).output.value.value;
    MeanOverTasks(policy, a);
    MeanOverTasks(policy, b);
    RepeatedTaskMeans(a, b, times);
    SameMean(x, y, TaskMeans(a));
  }

  lemma SameMean(x: real, y: real, means: seq<real>)
    requires means != [] && Times(x, |means|) == Total(means) == Times(y, |means|)
    ensures x == y
  {
    TimesIsProduct(x, |means|);
    TimesIsProduct(y, |means|);
    SameFactor(x, y, |means| as real);
  }

  lemma SameFactor(x: real, y: real, n: real)
    requires n > 0.0 && x * n == y * n
    ensures x == y
  {
    Cancel(x, y, n);
    Cancel(y, x, n);
  }

  // ---------------------------------------------------------------- what is counted

  function CountTasks(vectors: seq<seq<RowValue>>, p: seq<RowValue> -> bool): nat {
    if vectors == [] then 0 else (if p(vectors[0]) then 1 else 0) + CountTasks(vectors[1..], p)
  }

  lemma {:induction false} InputsByTask(policy: Policy, vectors: seq<seq<RowValue>>)
    ensures |Applicable(TaskInputs(policy, vectors))| == CountTasks(vectors, rows => RowScored(rows) || RowsLost(rows))
    ensures |Present(TaskInputs(policy, vectors))| ==
              CountTasks(vectors, rows => RowScored(rows) && (policy.skip || !RowsLost(rows)))
  {
    if vectors != [] {
      InputsByTask(policy, vectors[1..]);
      assert TaskInputs(policy, vectors)[1..] == TaskInputs(policy, vectors[1..]);
      TaskInputShape(policy, vectors[0]);
    }
  }

  /** The counts beside the value are of tasks: all planned ones, those with a scored or lost row, and those
      whose mean counts. */
  lemma OutputCountsTasks(policy: Policy, vectors: seq<seq<RowValue>>)
    ensures var output := MeanOf(policy, vectors).output;
            && output.total == |vectors|
            && output.applicable == CountTasks(vectors, rows => RowScored(rows) || RowsLost(rows))
            && output.present == CountTasks(vectors, rows => RowScored(rows) && (policy.skip || !RowsLost(rows)))
  {
    InputsByTask(policy, vectors);
    assert |TaskInputs(policy, vectors)| == |vectors|;
    PresentIsApplicable(TaskInputs(policy, vectors));
  }

  /** The cells of the matrix whose row is in one of the four states. */
  function CellsScored(vectors: seq<seq<RowValue>>): set<(nat, nat)> {
    set t, s | 0 <= t < |vectors| && 0 <= s < |vectors[t]| && vectors[t][s].Scored? :: (t, s)
  }

  function CellsMissing(vectors: seq<seq<RowValue>>): set<(nat, nat)> {
    set t, s | 0 <= t < |vectors| && 0 <= s < |vectors[t]| && vectors[t][s].Missing? :: (t, s)
  }

  function CellsFailed(vectors: seq<seq<RowValue>>): set<(nat, nat)> {
    set t, s | 0 <= t < |vectors| && 0 <= s < |vectors[t]| && vectors[t][s].Failed? :: (t, s)
  }

  function CellsInvalid(vectors: seq<seq<RowValue>>): set<(nat, nat)> {
    set t, s | 0 <= t < |vectors| && 0 <= s < |vectors[t]| && vectors[t][s].Invalid? :: (t, s)
  }

  /** The cells whose row satisfies a predicate. */
  function Cells(vectors: seq<seq<RowValue>>, p: RowValue -> bool): set<(nat, nat)> {
    set t, s | 0 <= t < |vectors| && 0 <= s < |vectors[t]| && p(vectors[t][s]) :: (t, s)
  }

  lemma {:induction false} CountAppend(a: seq<RowValue>, b: seq<RowValue>, p: RowValue -> bool)
    ensures Count(a + b, p) == Count(a, p) + Count(b, p)
  {
    if a == [] {
      assert a + b == b;
    } else {
      assert (a + b)[1..] == a[1..] + b;
      CountAppend(a[1..], b, p);
    }
  }

  lemma OneMoreCell(vectors: seq<seq<RowValue>>, rows: seq<RowValue>, row: RowValue, p: RowValue -> bool)
    ensures var before, after, cell := Cells(vectors + [rows], p), Cells(vectors + [rows + [row]], p), (|vectors|, |rows|);
            after == before + (if p(row) then {cell} else {}) && cell !in before
  {
  }

  lemma {:induction false} CellsByRow(vectors: seq<seq<RowValue>>, rows: seq<RowValue>, p: RowValue -> bool)
    ensures |Cells(vectors + [rows], p)| == |Cells(vectors, p)| + Count(rows, p)
  {
    if rows == [] {
      assert Cells(vectors + [rows], p) == Cells(vectors, p);
    } else {
      var most, last := rows[..|rows| - 1], rows[|rows| - 1];
      CellsByRow(vectors, most, p);
      CountAppend(most, [last], p);
      OneMoreCell(vectors, most, last, p);
      assert most + [last] == rows;
    }
  }

  lemma {:induction false} CountIsCells(vectors: seq<seq<RowValue>>, p: RowValue -> bool)
    ensures Count(Flatten(vectors), p) == |Cells(vectors, p)|
  {
    if vectors == [] {
      assert Cells(vectors, p) == {};
    } else {
      var most, last := vectors[..|vectors| - 1], vectors[|vectors| - 1];
      CountIsCells(most, p);
      CellsByRow(most, last, p);
      CountAppend(Flatten(most), last, p);
      assert most + [last] == vectors;
    }
  }

  /** The four row counts are the numbers of planned cells whose row is scored, missing, failed and invalid. */
  lemma AccountingIsExact(policy: Policy, vectors: seq<seq<RowValue>>)
    ensures var a := MeanOf(policy, vectors).accounting;
            && a.present == |CellsScored(vectors)| && a.missing == |CellsMissing(vectors)|
            && a.failed == |CellsFailed(vectors)| && a.invalid == |CellsInvalid(vectors)|
  {
    var scored, missing := (r: RowValue) => r.Scored?, (r: RowValue) => r.Missing?;
    var failed, invalid := (r: RowValue) => r.Failed?, (r: RowValue) => r.Invalid?;
    CountIsCells(vectors, scored);
    CountIsCells(vectors, missing);
    CountIsCells(vectors, failed);
    CountIsCells(vectors, invalid);
    assert Cells(vectors, scored) == CellsScored(vectors) && Cells(vectors, missing) == CellsMissing(vectors);
    assert Cells(vectors, failed) == CellsFailed(vectors) && Cells(vectors, invalid) == CellsInvalid(vectors);
  }

  // ---------------------------------------------------------------- where it lies

  predicate Within(lo: real, values: seq<real>, hi: real) {
    forall i :: 0 <= i < |values| ==> lo <= values[i] <= hi
  }

  lemma {:induction false} TotalWithin(lo: real, values: seq<real>, hi: real)
    requires Within(lo, values, hi)
    ensures lo * |values| as real <= Total(values) <= hi * |values| as real
  {
    if values != [] {
      TotalWithin(lo, values[1..], hi);
    }
  }

  lemma MeanWithin(lo: real, values: seq<real>, hi: real)
    requires values != [] && Within(lo, values, hi)
    ensures lo <= Total(values) / |values| as real <= hi
  {
    TotalWithin(lo, values, hi);
    QuotientWithin(lo, Total(values), hi, |values| as real);
  }

  lemma QuotientWithin(lo: real, total: real, hi: real, n: real)
    requires n > 0.0 && lo * n <= total <= hi * n
    ensures lo <= total / n <= hi
  {
    var mean := total / n;
    assert mean * n == total;
    Cancel(lo, mean, n);
    Cancel(mean, hi, n);
  }

  lemma Cancel(a: real, b: real, n: real)
    requires n > 0.0 && a * n <= b * n
    ensures a <= b
  {
    var gap := b - a;
    assert gap * n == b * n - a * n;
    assert gap * n >= 0.0;
  }

  lemma {:induction false} PresentWithin(inputs: seq<Input>, lo: real, hi: real)
    requires forall i :: 0 <= i < |inputs| && inputs[i].value.Some? ==> lo <= inputs[i].value.value <= hi
    ensures Within(lo, Present(inputs), hi)
  {
    if inputs != [] {
      PresentWithin(inputs[1..], lo, hi);
    }
  }

  predicate ScoresWithin(vectors: seq<seq<RowValue>>, lo: real, hi: real) {
    forall t, s :: 0 <= t < |vectors| && 0 <= s < |vectors[t]| && vectors[t][s].Scored? ==> lo <= vectors[t][s].value <= hi
  }

  /** A defined mean lies between any bounds on the scored rows, the least and the greatest score among them. */
  lemma MeanLiesWithin(policy: Policy, vectors: seq<seq<RowValue>>, lo: real, hi: real)
    requires MeanOf(policy, vectors).output.value.Some? && ScoresWithin(vectors, lo, hi)
    ensures lo <= MeanOf(policy, vectors).output.value.value <= hi
  {
    var inputs := TaskInputs(policy, vectors);
    forall t | 0 <= t < |inputs| && inputs[t].value.Some?
      ensures lo <= inputs[t].value.value <= hi
    {
      TaskInputShape(policy, vectors[t]);
      PresentWithin(Inputs(vectors[t]), lo, hi);
      MeanWithin(lo, Present(Inputs(vectors[t])), hi);
    }
    PresentWithin(inputs, lo, hi);
    PresentIsApplicable(inputs);
    MeanWithin(lo, Present(inputs), hi);
  }

  // ---------------------------------------------------------------- accounting

  lemma {:induction false} CountsCover(rows: seq<RowValue>)
    ensures var c := RowCounts(rows);
            c.present + c.missing + c.failed + c.invalid == |rows|
  {
    if rows != [] {
      CountsCover(rows[1..]);
    }
  }

  lemma {:induction false} FlattenLength(vectors: seq<seq<RowValue>>, seeds: nat)
    requires forall t :: 0 <= t < |vectors| ==> |vectors[t]| == seeds
    ensures |Flatten(vectors)| == |vectors| * seeds
  {
    if vectors != [] {
      FlattenLength(vectors[..|vectors| - 1], seeds);
      assert |vectors| * seeds == (|vectors| - 1) * seeds + seeds;
    }
  }

  /** The four row counts cover the planned matrix exactly. */
  lemma AccountingCoversPlan(plan: Plan, observed: seq<TaskRows>)
    requires Acceptable(plan, observed)
    ensures var a := MeanOf(plan.policy, Vectors(plan, observed)).accounting;
            a.present + a.missing + a.failed + a.invalid == |plan.tasks| * plan.seeds
  {
    var vectors := Vectors(plan, observed);
    FlattenLength(vectors, plan.seeds);
    CountsCover(Flatten(vectors));
  }

  /** The planned matrix holds each observed row at its place and a missing one everywhere else. */
  lemma PlannedCells(plan: Plan, observed: seq<TaskRows>, t: nat, s: nat)
    requires Acceptable(plan, observed) && t < |plan.tasks| && s < plan.seeds
    ensures forall i :: 0 <= i < |observed| && observed[i].task == plan.tasks[t] && s < |observed[i].rows| ==>
              Vectors(plan, observed)[t][s] == observed[i].rows[s]
    ensures (forall i :: 0 <= i < |observed| ==> observed[i].task != plan.tasks[t] || |observed[i].rows| <= s) ==>
              Vectors(plan, observed)[t][s] == Missing
  {
    if Observes(observed, plan.tasks[t]) {
      var i :| 0 <= i < |observed| && observed[i].task == plan.tasks[t];
      assert RowsFor(observed, plan.tasks[t]) == observed[i].rows;
    }
  }

  // ---------------------------------------------------------------- order of observation

  lemma MultisetMember(a: seq<TaskRows>, b: seq<TaskRows>, i: nat)
    requires multiset(a) == multiset(b) && i < |a|
    ensures a[i] in b
  {
    assert a[i] in multiset(b);
  }

  lemma NoDuplicatesAgree(a: seq<TaskRows>, b: seq<TaskRows>)
    requires multiset(a) == multiset(b) && NoDuplicates(a)
    ensures NoDuplicates(b)
  {
    forall i, j | 0 <= i < j < |b|
      ensures b[i].task != b[j].task
    {
      MultisetMember(b, a, i);
      MultisetMember(b, a, j);
      var x :| 0 <= x < |a| && a[x] == b[i];
      var y :| 0 <= y < |a| && a[y] == b[j];
      if x == y {
        TwoOccurrences(b, i, j);
        OneOccurrence(a, x);
        assert false;
      }
    }
  }

  lemma TwoOccurrences(s: seq<TaskRows>, i: nat, j: nat)
    requires i < j < |s| && s[i] == s[j]
    ensures multiset(s)[s[i]] >= 2
  {
    assert s == s[..i] + [s[i]] + s[i + 1..j] + [s[j]] + s[j + 1..];
  }

  lemma OneOccurrence(s: seq<TaskRows>, i: nat)
    requires i < |s| && NoDuplicates(s)
    ensures multiset(s)[s[i]] == 1
  {
    assert s == s[..i] + [s[i]] + s[i + 1..];
    assert s[i] !in s[..i] && s[i] !in s[i + 1..];
  }

  lemma RowsForAgree(a: seq<TaskRows>, b: seq<TaskRows>, task: string)
    requires multiset(a) == multiset(b) && NoDuplicates(a) && NoDuplicates(b)
    ensures RowsFor(a, task) == RowsFor(b, task)
  {
    if Observes(a, task) {
      var i :| 0 <= i < |a| && a[i].task == task;
      MultisetMember(a, b, i);
    } else if Observes(b, task) {
      var i :| 0 <= i < |b| && b[i].task == task;
      MultisetMember(b, a, i);
      assert false;
    }
  }

  /** Neither acceptance nor the result depends on the order in which tasks were observed. */
  lemma ObservedOrderIsIrrelevant(plan: Plan, a: seq<TaskRows>, b: seq<TaskRows>)
    requires multiset(a) == multiset(b) && Acceptable(plan, a)
    ensures Acceptable(plan, b) && Vectors(plan, a) == Vectors(plan, b)
    ensures MeanOf(plan.policy, Vectors(plan, a)) == MeanOf(plan.policy, Vectors(plan, b))
  {
    NoDuplicatesAgree(a, b);
    forall i | 0 <= i < |b|
      ensures b[i].task in plan.tasks
    {
      MultisetMember(b, a, i);
    }
    forall task: string
      ensures RowsFor(a, task) == RowsFor(b, task)
    {
      RowsForAgree(a, b, task);
    }
  }
}
