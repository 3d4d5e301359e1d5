/** The records of the platform stage machine, and the fan-out of a deferral episode into row stages and
    one barrier stage. */
module StageFanOut {

  datatype Option<+T> = None | Some(value: T)

  /** `tasks` narrows the engine to those task ids, in that order. */
  datatype Intent = Intent(id: nat, tasks: Option<seq<nat>>)

  datatype Engine = Engine(tasks: seq<nat>, seeds: nat)

  /** What a step was asked: the stage salt that GEPA adds, and the exact chain of prior results. */
  datatype Request = Request(salt: Option<nat>, stepIndex: nat, prior: seq<StepResult>)

  datatype StepResult = StepResult(request: Request, continues: bool, resolved: seq<nat>, evidence: nat)

  /** `OptimWorkState`; `stage` is the platform stage index of its work input. */
  datatype WorkState = WorkState(
    stage: nat, stepIndex: nat, steps: seq<StepResult>, terminal: bool,
    pending: Option<StepResult>, origin: Option<nat>, intents: seq<Intent>)

  datatype RowInput = RowInput(state: WorkState, origin: nat, ordinal: nat, intent: Intent, task: nat, seed: nat)

  datatype Join = Join(state: WorkState, origin: nat, primary: Intent, rows: seq<RowInput>)

  datatype Successor =
    | RowStage(index: nat, row: RowInput)
    | FaninStage(index: nat, join: Join)
    | StepStage(index: nat, state: WorkState)

  /** The task ids can be looked up: a declared subset is non-empty, unique and known. */
  predicate Known(engine: Engine, intent: Intent) {
    intent.tasks.Some? ==>
      && intent.tasks.value != []
      && (forall i, j :: 0 <= i < j < |intent.tasks.value| ==> intent.tasks.value[i] != intent.tasks.value[j])
      && (forall t :: t in intent.tasks.value ==> t in engine.tasks)
  }

  predicate AllKnown(engine: Engine, intents: seq<Intent>) {
    forall i :: 0 <= i < |intents| ==> Known(engine, intents[i])
  }

  function TaskIds(engine: Engine, intent: Intent): seq<nat> {
    if intent.tasks.Some? then intent.tasks.value else engine.tasks
  }

  /** `_deferred_row_count`. */
  function RowCount(engine: Engine, intents: seq<Intent>): nat {
    if intents == [] then 0
    else RowCount(engine, intents[..|intents| - 1]) + |TaskIds(engine, intents[|intents| - 1])| * engine.seeds
  }

  datatype Cell = Cell(intent: Intent, task: nat, seed: nat)

  /** The cells of one intent: task by task, every seed. */
  function IntentCells(engine: Engine, intent: Intent): (cells: seq<Cell>)
    ensures |cells| == |TaskIds(engine, intent)| * engine.seeds
  {
    TaskCells(engine, intent, |TaskIds(engine, intent)|)
  }

  function TaskCells(engine: Engine, intent: Intent, upTo: nat): (cells: seq<Cell>)
    requires upTo <= |TaskIds(engine, intent)|
    ensures |cells| == upTo * engine.seeds
  {
    if upTo == 0 then []
    else
      assert upTo * engine.seeds == (upTo - 1) * engine.seeds + engine.seeds;
      TaskCells(engine, intent, upTo - 1) + TaskRow(engine, intent, upTo - 1)
  }

  function TaskRow(engine: Engine, intent: Intent, t: nat): seq<Cell>
    requires t < |TaskIds(engine, intent)|
  {
    seq(engine.seeds, seed requires 0 <= seed => Cell(intent, TaskIds(engine, intent)[t], seed))
  }

  /** The cells of one intent are in row-major order. */
  lemma {:induction false} RowMajor(engine: Engine, intent: Intent, upTo: nat, t: nat, seed: nat)
    requires t < upTo <= |TaskIds(engine, intent)| && seed < engine.seeds
    ensures 0 <= t * engine.seeds + seed < |TaskCells(engine, intent, upTo)|
    ensures TaskCells(engine, intent, upTo)[t * engine.seeds + seed] == Cell(intent, TaskIds(engine, intent)[t], seed)
  {
    if t < upTo - 1 {
      RowMajor(engine, intent, upTo - 1, t, seed);
    } else {
      assert TaskCells(engine, intent, upTo)[t * engine.seeds + seed] == TaskRow(engine, intent, t)[seed];
    }
  }

  /** All cells of an episode, intent after intent. */
  function Cells(engine: Engine, intents: seq<Intent>): (cells: seq<Cell>)
    ensures |cells| == RowCount(engine, intents)
  {
    if intents == [] then []
    else Cells(engine, intents[..|intents| - 1]) + IntentCells(engine, intents[|intents| - 1])
  }

  /** The row inputs of an episode: each carries its own position. */
  function Rows(engine: Engine, intents: seq<Intent>, origin: nat, state: WorkState): (rows: seq<RowInput>)
    ensures |rows| == RowCount(engine, intents)
  {
    var cells := Cells(engine, intents);
    seq(|cells|, k requires 0 <= k < |cells| => RowInput(state, origin, k, cells[k].intent, cells[k].task, cells[k].seed))
  }

  /** `_expand_eval_rows`: the loop that counts its ordinals. */
  method ExpandEvalRows(engine: Engine, intents: seq<Intent>, origin: nat, state: WorkState) returns (rows: seq<RowInput>)
    ensures rows == Rows(engine, intents, origin, state)
  {
    rows := [];
    var ordinal := 0;
    for i := 0 to |intents|
      invariant ordinal == |rows|
      invariant rows == Rows(engine, intents[..i], origin, state)
    {
      ghost var before := Cells(engine, intents[..i]);
      var ids := TaskIds(engine, intents[i]);
      for t := 0 to |ids|
        invariant ordinal == |rows|
        invariant rows == Placed(before + TaskCells(engine, intents[i], t), origin, state)
      {
        ghost var base := before + TaskCells(engine, intents[i], t);
        ghost var row := TaskRow(engine, intents[i], t);
        for seed := 0 to engine.seeds
          invariant ordinal == |rows|
          invariant rows == Placed(base + row[..seed], origin, state)
        {
          rows := rows + [RowInput(state, origin, ordinal, intents[i], ids[t], seed)];
          ordinal := ordinal + 1;
          assert row[..seed + 1] == row[..seed] + [row[seed]];
        }
        assert row[..engine.seeds] == row;
        assert base + row == before + TaskCells(engine, intents[i], t + 1);
      }
      assert intents[..i + 1][..i] == intents[..i];
      assert before + IntentCells(engine, intents[i]) == Cells(engine, intents[..i + 1]);
    }
    assert intents[..|intents|] == intents;
  }

  function Placed(cells: seq<Cell>, origin: nat, state: WorkState): seq<RowInput> {
    seq(|cells|, k requires 0 <= k < |cells| => RowInput(state, origin, k, cells[k].intent, cells[k].task, cells[k].seed))
  }

  /** The state a deferral parks the head on: its stage is the barrier of the fan-out. */
  function Parked(engine: Engine, state: WorkState, intents: seq<Intent>, origin: nat, pending: StepResult): WorkState {
    WorkState(origin + RowCount(engine, intents) + 1, state.stepIndex, state.steps, false, Some(pending), Some(origin), intents)
  }

  function JoinOf(engine: Engine, intents: seq<Intent>, origin: nat, state: WorkState): Join
    requires intents != []
  {
    Join(state, origin, intents[0], Rows(engine, intents, origin, state))
  }

  /** `_emit_deferred_successors`: one stage per row, then the barrier. */
  function Emitted(engine: Engine, intents: seq<Intent>, origin: nat, state: WorkState): seq<Successor>
    requires intents != []
  {
    var rows := Rows(engine, intents, origin, state);
    seq(|rows|, k requires 0 <= k < |rows| => RowStage(origin + 1 + k, rows[k]))
      + [FaninStage(origin + 1 + |rows|, JoinOf(engine, intents, origin, state))]
  }

  method EmitDeferredSuccessors(engine: Engine, intents: seq<Intent>, origin: nat, state: WorkState)
    returns (successors: seq<Successor>)
    requires intents != []
    ensures successors == Emitted(engine, intents, origin, state)
  {
    var rows := ExpandEvalRows(engine, intents, origin, state);
    successors := [];
    var next := origin + 1;
    for k := 0 to |rows|
      invariant next == origin + 1 + k
      invariant successors == seq(k, i requires 0 <= i < |rows| => RowStage(origin + 1 + i, rows[i]))
    {
      successors := successors + [RowStage(next, rows[k])];
      next := next + 1;
    }
    successors := successors + [FaninStage(next, Join(state, origin, intents[0], rows))];
  }

  /** The check `execute_eval_row_sync` makes on the stage index it is called with. */
  function ExpectedRowIndex(row: RowInput): nat {
    row.origin + 1 + row.ordinal
  }

  function Offset(engine: Engine, intents: seq<Intent>, i: nat): nat
    requires i <= |intents|
  {
    RowCount(engine, intents[..i])
  }

  lemma EmittedRow(engine: Engine, intents: seq<Intent>, origin: nat, state: WorkState, k: nat)
    requires intents != [] && k < RowCount(engine, intents)
    ensures var row := Rows(engine, intents, origin, state)[k];
            && Emitted(engine, intents, origin, state)[k] == RowStage(origin + 1 + k, row)
            && row.state == state && row.origin == origin && row.ordinal == k
  {
  }

  /** The fan-out is contiguous: row stages fill origin+1 .. origin+n, each where its own check expects it,
      the barrier sits at the stage of the parked state, and the fan-in finds as many rows as it counts. */
  lemma FanOutAgrees(engine: Engine, state: WorkState, intents: seq<Intent>, origin: nat, pending: StepResult)
    requires intents != []
    ensures var parked := Parked(engine, state, intents, origin, pending);
            var out := Emitted(engine, intents, origin, parked);
            var n := RowCount(engine, intents);
            && |out| == n + 1
            && (forall k :: 0 <= k < |out| ==> out[k].index == origin + 1 + k)
            && (forall k :: 0 <= k < n ==> out[k].RowStage? && out[k].index == ExpectedRowIndex(out[k].row))
            && out[n].FaninStage? && out[n].index == parked.stage
            && |out[n].join.rows| == RowCount(engine, intents)
            && out[n].join.state == parked && out[n].join.origin == origin && out[n].join.primary == intents[0]
            && parked.intents == intents && parked.origin == Some(origin) && parked.pending == Some(pending)
            && !parked.terminal && parked.stepIndex == state.stepIndex && parked.steps == state.steps
            && (forall k :: 0 <= k < n ==> out[k].row.state == parked && out[k].row.origin == origin && out[k].row.ordinal == k)
            && (forall k :: 0 <= k < n ==> out[n].join.rows[k] == out[k].row)
  {
    var parked := Parked(engine, state, intents, origin, pending);
    forall k: nat | k < RowCount(engine, intents)
      ensures Emitted(engine, intents, origin, parked)[k] == RowStage(origin + 1 + k, Rows(engine, intents, origin, parked)[k])
      ensures Rows(engine, intents, origin, parked)[k].state == parked
      ensures Rows(engine, intents, origin, parked)[k].origin == origin && Rows(engine, intents, origin, parked)[k].ordinal == k
    {
      EmittedRow(engine, intents, origin, parked, k);
    }
  }

  /** The cells of an intent follow those of the intents before it. */
  lemma {:induction false} CellsInOrder(engine: Engine, intents: seq<Intent>, i: nat, j: nat)
    requires i < |intents| && j < |IntentCells(engine, intents[i])|
    ensures Offset(engine, intents, i) + j < |Cells(engine, intents)|
    ensures Cells(engine, intents)[Offset(engine, intents, i) + j] == IntentCells(engine, intents[i])[j]
    decreases |intents|
  {
    var last := |intents| - 1;
    if i < last {
      CellsInOrder(engine, intents[..last], i, j);
      assert intents[..last][..i] == intents[..i];
    }
  }

  /** Every (intent, task, seed) of the episode gets its row, in row-major order behind the rows of the
      intents before it.  The tasks of an intent are its declared subset, or all tasks of the engine. */
  lemma EveryCellHasItsRow(engine: Engine, intents: seq<Intent>, origin: nat, state: WorkState, ids: seq<nat>, i: nat, t: nat, seed: nat)
    requires i < |intents| && ids == (if intents[i].tasks.Some? then intents[i].tasks.value else engine.tasks)
    requires t < |ids| && seed < engine.seeds
    ensures var k := Offset(engine, intents, i) + (t * engine.seeds + seed);
            && 0 <= k < |Rows(engine, intents, origin, state)|
            && Rows(engine, intents, origin, state)[k] == RowInput(state, origin, k, intents[i], ids[t], seed)
    ensures Offset(engine, intents, i + 1) == Offset(engine, intents, i) + |ids| * engine.seeds
  {
    RowMajor(engine, intents[i], |TaskIds(engine, intents[i])|, t, seed);
    CellsInOrder(engine, intents, i, t * engine.seeds + seed);
    assert intents[..i + 1][..i] == intents[..i];
  }
}
