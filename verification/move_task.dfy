/** The optimistic `moveTask` reducer of the Kanban context
    (src/contexts/kanban-context.tsx:188-222): strip the task from every
    column, re-insert it into the target column with `splice`, and renumber
    the target column only. */
module TaskMove {
  import opened Basics
  import opened Kanban

  /** The index at which `list.splice(start, 0, item)` inserts into a list of
      length `len`: a negative start counts back from the end (never below
      0), a start past the end appends. */
  function SpliceIndex(len: nat, start: int): (k: nat)
    ensures k <= len
    ensures 0 <= start <= len ==> k == start
    ensures start > len ==> k == len
    ensures start < 0 && 0 <= len + start ==> k == len + start
    ensures len + start < 0 ==> k == 0
  {
    if start < 0 then (if len + start < 0 then 0 else len + start)
    else if start > len then len
    else start
  }

  function Insert(ts: seq<Task>, k: nat, t: Task): seq<Task>
    requires k <= |ts|
  {
    ts[..k] + [t] + ts[k..]
  }

  /** Renumbering: every task's position becomes its index in the list. The
      source assigns to task objects it shares with the previous board snapshot;
      here a fresh list of updated records is built instead, which is what
      the new snapshot observes. */
  function Renumber(ts: seq<Task>): (r: seq<Task>)
    ensures |r| == |ts|
  {
    seq(|ts|, i requires 0 <= i < |ts| => ts[i].(position := i))
  }

  /** Every column with all tasks carrying `taskId` filtered out; the column
      fields and the order of columns are kept. */
  function Strip(cols: seq<Column>, taskId: string): (r: seq<Column>)
    ensures |r| == |cols|
  {
    seq(|cols|, i requires 0 <= i < |cols| => cols[i].(tasks := RemoveTask(cols[i].tasks, taskId)))
  }

  /** `moveTask(taskId, newColumnId, newPosition)` applied to a present board.
      An unknown task or an unknown target column returns the input board;
      otherwise the task leaves every column, lands in the first column named
      `newColumnId` at the `splice` index, and only that column is renumbered:
      every other column (the source column included) keeps its remaining
      tasks and their old positions. */
  function MoveTask(b: Board, taskId: string, newColumnId: string, newPosition: int): (r: Board)
    ensures LookupTask(b.columns, taskId).None? ==> r == b
    ensures FindColumn(b.columns, newColumnId).None? ==> r == b
    ensures r.id == b.id && r.name == b.name && r.workspaceId == b.workspaceId
    ensures |r.columns| == |b.columns|
    ensures forall j :: 0 <= j < |b.columns| ==> r.columns[j].(tasks := []) == b.columns[j].(tasks := [])
    ensures LookupTask(b.columns, taskId).Some? && FindColumn(b.columns, newColumnId).Some? ==>
      var ti := FindColumn(b.columns, newColumnId).value;
      var rest := RemoveTask(b.columns[ti].tasks, taskId);
      var k := SpliceIndex(|rest|, newPosition);
      && |r.columns[ti].tasks| == |rest| + 1
      && r.columns[ti].tasks[k] == LookupTask(b.columns, taskId).value.(columnId := newColumnId, position := k)
      && (forall i :: 0 <= i < k ==> r.columns[ti].tasks[i] == rest[i].(position := i))
      && (forall i :: k < i <= |rest| ==> r.columns[ti].tasks[i] == rest[i - 1].(position := i))
      && (forall i :: 0 <= i < |r.columns[ti].tasks| ==> r.columns[ti].tasks[i].position == i)
      && (forall j :: 0 <= j < |b.columns| && j != ti ==> r.columns[j].tasks == RemoveTask(b.columns[j].tasks, taskId))
  {
    var stripped := Strip(b.columns, taskId);
    match LookupTask(b.columns, taskId)
    case None => b
    case Some(task) =>
      FindColumnSameIds(stripped, b.columns, newColumnId);
      match FindColumn(stripped, newColumnId)
      case None => b
      case Some(ti) =>
        var updated := task.(columnId := newColumnId, position := newPosition);
        var k := SpliceIndex(|stripped[ti].tasks|, newPosition);
        var target := Renumber(Insert(stripped[ti].tasks, k, updated));
        RenumberedInsert(stripped[ti].tasks, k, updated);
        b.(columns := stripped[ti := stripped[ti].(tasks := target)])
  }

  /** Renumbering after a splice at `k`: the new task sits at `k`, the old
      ones before it keep their index, those after it move up by one, and
      every position equals its index. */
  lemma RenumberedInsert(rest: seq<Task>, k: nat, t: Task)
    requires k <= |rest|
    ensures var target := Renumber(Insert(rest, k, t));
      && |target| == |rest| + 1
      && target[k] == t.(position := k)
      && (forall i :: 0 <= i < k ==> target[i] == rest[i].(position := i))
      && (forall i :: k < i <= |rest| ==> target[i] == rest[i - 1].(position := i))
      && (forall i :: 0 <= i < |target| ==> target[i].position == i)
  {
    var ins := Insert(rest, k, t);
    assert forall i :: 0 <= i < k ==> ins[i] == rest[i];
    assert forall i :: k < i <= |rest| ==> ins[i] == rest[i - 1];
  }

  /** `FindColumn` only looks at column ids. */
  lemma {:induction false} FindColumnSameIds(a: seq<Column>, b: seq<Column>, id: string)
    requires |a| == |b| && forall i :: 0 <= i < |a| ==> a[i].id == b[i].id
    ensures FindColumn(a, id) == FindColumn(b, id)
  {
    if |a| > 0 {
      FindColumnSameIds(a[1..], b[1..], id);
    }
  }

  /** `CountId` only looks at task ids. */
  lemma {:induction false} CountIdSameIds(a: seq<Task>, b: seq<Task>, id: string)
    requires |a| == |b| && forall i :: 0 <= i < |a| ==> a[i].id == b[i].id
    ensures CountId(a, id) == CountId(b, id)
  {
    if |a| > 0 {
      CountIdSameIds(a[1..], b[1..], id);
    }
  }

  /** A column built by splicing one `id` task into a list free of `id`
      (with any positions) holds `id` exactly once. */
  lemma {:induction false} SplicedOnce(rest: seq<Task>, k: nat, target: seq<Task>, id: string)
    requires k <= |rest| && |target| == |rest| + 1
    requires CountId(rest, id) == 0
    requires target[k].id == id
    requires forall i :: 0 <= i < k ==> target[i].id == rest[i].id
    requires forall i :: k < i <= |rest| ==> target[i].id == rest[i - 1].id
    ensures CountId(target, id) == 1
  {
    var spliced := rest[..k] + [target[k]] + rest[k..];
    forall i | 0 <= i < |spliced| ensures spliced[i].id == target[i].id {
      if i < k {
        assert spliced[i] == rest[i];
      } else if i > k {
        assert spliced[i] == rest[i - 1];
      }
    }
    CountIdSameIds(spliced, target, id);
    assert rest == rest[..k] + rest[k..];
    CountIdAppend(rest[..k], rest[k..], id);
    CountIdAppend(rest[..k] + [target[k]], rest[k..], id);
    CountIdAppend(rest[..k], [target[k]], id);
  }

  /** A board whose column `ti` holds `id` once and whose other columns do
      not hold it has exactly one occurrence of `id`. */
  lemma {:induction false} OneColumnHoldsId(cols: seq<Column>, ti: nat, id: string)
    requires ti < |cols|
    requires CountId(cols[ti].tasks, id) == 1
    requires forall j :: 0 <= j < |cols| && j != ti ==> CountId(cols[j].tasks, id) == 0
    ensures Occurrences(cols, id) == 1
  {
    var before, after := cols[..ti], cols[ti + 1..];
    assert forall i :: 0 <= i < |before| ==> before[i] == cols[i];
    assert forall i :: 0 <= i < |after| ==> after[i] == cols[ti + 1 + i];
    OccurrencesSplit(cols, ti, id);
    OccurrencesZero(before, id);
    OccurrencesZero(after, id);
  }

  /** After a successful move the task is on the board exactly once, whatever
      duplicates of its id the board held before. */
  lemma {:induction false} MoveTaskLeavesOneCopy(b: Board, taskId: string, newColumnId: string, newPosition: int)
    requires LookupTask(b.columns, taskId).Some?
    requires FindColumn(b.columns, newColumnId).Some?
    ensures Occurrences(MoveTask(b, taskId, newColumnId, newPosition).columns, taskId) == 1
  {
    var cols := MoveTask(b, taskId, newColumnId, newPosition).columns;
    var ti := FindColumn(b.columns, newColumnId).value;
    var rest := RemoveTask(b.columns[ti].tasks, taskId);
    var k := SpliceIndex(|rest|, newPosition);
    forall j | 0 <= j < |cols| && j != ti
      ensures CountId(cols[j].tasks, taskId) == 0
    {
      RemoveTaskCount(b.columns[j].tasks, taskId);
    }
    RemoveTaskCount(b.columns[ti].tasks, taskId);
    SplicedOnce(rest, k, cols[ti].tasks, taskId);
    OneColumnHoldsId(cols, ti, taskId);
  }
}
