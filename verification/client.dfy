/** The Kanban context's state as the UI sees it — the optional board
    snapshot plus the sync state — and its mutation entry points: `moveTask`
    (src/contexts/kanban-context.tsx:188-236) and the four request/response
    operations whose successful replies are merged into the board
    (src/contexts/kanban-context.tsx:238-405). */
module Client {
  import opened Basics
  import opened Kanban
  import opened TaskMove
  import opened PendingQueue
  import opened Sync

  datatype ClientState = ClientState(board: Option<Board>, sync: SyncState)

  /** The outcome of one CRUD request: the parsed body of an OK response, or
      a failure (a non-OK status or a thrown error, both of which only raise
      a toast). */
  datatype Reply<T> = Success(body: T) | Failure

  /** `moveTask(taskId, newColumnId, newPosition)` with `Date.now()` supplied
      as `now`. Without a board nothing happens. Otherwise the board is
      rearranged by `MoveTask` and, whether or not that changed anything, the
      queue receives the requested placement — the requested `newPosition`,
      not the index the task actually landed at. */
  function MoveAction(s: ClientState, taskId: string, newColumnId: string, newPosition: int, now: int): (r: ClientState)
    ensures s.board.None? ==> r == s
    ensures s.board.Some? ==> r.board == Some(MoveTask(s.board.value, taskId, newColumnId, newPosition))
    ensures s.board.Some? ==>
      && |r.sync.pending| > 0
      && r.sync.pending[|r.sync.pending| - 1] == PendingUpdate(taskId, newColumnId, newPosition, now)
      && (forall i :: 0 <= i < |r.sync.pending| - 1 ==> r.sync.pending[i].taskId != taskId)
      && forall v: PendingUpdate :: v.taskId != taskId ==> multiset(r.sync.pending)[v] == multiset(s.sync.pending)[v]
    ensures Coalesced(s.sync.pending) ==> Coalesced(r.sync.pending)
    ensures r.sync.isSyncing == s.sync.isSyncing && r.sync.retryCount == s.sync.retryCount
  {
    match s.board
    case None => s
    case Some(b) =>
      var u := PendingUpdate(taskId, newColumnId, newPosition, now);
      EnqueueKeepsOthers(s.sync.pending, u);
      assert Coalesced(s.sync.pending) ==> Coalesced(Enqueue(s.sync.pending, u)) by {
        if Coalesced(s.sync.pending) { EnqueueKeepsCoalesced(s.sync.pending, u); }
      }
      ClientState(Some(MoveTask(b, taskId, newColumnId, newPosition)),
                  s.sync.(pending := Enqueue(s.sync.pending, u)))
  }

  /** A move of an unknown task leaves the board as it was yet still queues
      an update for it. */
  lemma MoveOfUnknownTaskStillQueues(s: ClientState, taskId: string, newColumnId: string, newPosition: int, now: int)
    requires s.board.Some? && LookupTask(s.board.value.columns, taskId).None?
    ensures var r := MoveAction(s, taskId, newColumnId, newPosition, now);
            r.board == s.board && PendingUpdate(taskId, newColumnId, newPosition, now) in r.sync.pending
  {
  }

  /** A move past the end of the target column lands the task last but
      queues the out-of-range index that was asked for. */
  lemma QueuedPositionIsTheRequestedOne(s: ClientState, taskId: string, newColumnId: string, newPosition: int, now: int)
    requires s.board.Some?
    requires LookupTask(s.board.value.columns, taskId).Some?
    requires FindColumn(s.board.value.columns, newColumnId).Some?
    requires newPosition > |s.board.value.columns[FindColumn(s.board.value.columns, newColumnId).value].tasks|
    ensures var r := MoveAction(s, taskId, newColumnId, newPosition, now);
            var target := r.board.value.columns[FindColumn(s.board.value.columns, newColumnId).value].tasks;
            && target[|target| - 1].id == taskId
            && target[|target| - 1].position == |target| - 1 < newPosition
            && r.sync.pending[|r.sync.pending| - 1].position == newPosition
  {
    var b := s.board.value;
    var ti := FindColumn(b.columns, newColumnId).value;
    var rest := RemoveTask(b.columns[ti].tasks, taskId);
    assert |rest| <= |b.columns[ti].tasks|;
    assert SpliceIndex(|rest|, newPosition) == |rest|;
  }

  /** Every task id of a board on which `LookupTask` finds nothing differs
      from `id`, column by column. */
  lemma NotOnBoard(cols: seq<Column>, id: string)
    requires LookupTask(cols, id).None?
    ensures forall i, j :: 0 <= i < |cols| && 0 <= j < |cols[i].tasks| ==> cols[i].tasks[j].id != id
  {
    forall i, j | 0 <= i < |cols| && 0 <= j < |cols[i].tasks|
      ensures cols[i].tasks[j].id != id
    {
      FlatMapIndex(cols, TasksOf, i, j);
    }
  }

  /** The body `createTask` posts: an empty description is sent as `null`. */
  function CreateTaskDescription(description: Option<string>): (d: Option<string>)
    ensures d.Some? ==> |d.value| > 0 && d == description
    ensures description.Some? && |description.value| > 0 ==> d == description
  {
    match description
    case Some(text) => if |text| == 0 then None else description
    case None => None
  }

  /** The column-level step of `createTask`'s merge. */
  function AddTo(c: Column, columnId: string, t: Task): Column
  {
    if c.id == columnId then c.(tasks := c.tasks + [t]) else c
  }

  /** Merge of a created task (src/contexts/kanban-context.tsx:259-275): the
      returned task is appended to each column named `columnId` and to no
      other; without a board or on failure nothing changes. */
  function CreateTaskMerge(board: Option<Board>, columnId: string, reply: Reply<Task>): (r: Option<Board>)
    ensures board.None? || reply.Failure? ==> r == board
    ensures board.Some? && reply.Success? ==>
      var b := board.value;
      && r.Some? && r.value.(columns := []) == b.(columns := [])
      && |r.value.columns| == |b.columns|
      && forall i :: 0 <= i < |b.columns| ==>
           && r.value.columns[i].(tasks := []) == b.columns[i].(tasks := [])
           && (b.columns[i].id == columnId ==> r.value.columns[i].tasks == b.columns[i].tasks + [reply.body])
           && (b.columns[i].id != columnId ==> r.value.columns[i].tasks == b.columns[i].tasks)
  {
    match (board, reply)
    case (Some(b), Success(t)) =>
      Some(b.(columns := seq(|b.columns|, i requires 0 <= i < |b.columns| => AddTo(b.columns[i], columnId, t))))
    case _ => board
  }

  /** A new column record as the column route returns it. */
  datatype ColumnRecord = ColumnRecord(id: string, name: string, position: int, boardId: string)

  /** Merge of a created column (src/contexts/kanban-context.tsx:308-316):
      `{...newColumn, tasks: []}` is appended after the existing columns. */
  function CreateColumnMerge(board: Option<Board>, reply: Reply<ColumnRecord>): (r: Option<Board>)
    ensures board.None? || reply.Failure? ==> r == board
    ensures board.Some? && reply.Success? ==>
      var c := reply.body;
      && r.Some? && r.value.(columns := []) == board.value.(columns := [])
      && r.value.columns == board.value.columns + [Column(c.id, c.name, c.position, c.boardId, [])]
  {
    match (board, reply)
    case (Some(b), Success(c)) => Some(b.(columns := b.columns + [Column(c.id, c.name, c.position, c.boardId, [])]))
    case _ => board
  }

  /** Adding an empty column leaves the flattened task list — what every view
      of the board renders — untouched. */
  lemma {:induction false} CreateColumnKeepsTasks(board: Option<Board>, reply: Reply<ColumnRecord>)
    requires board.Some?
    ensures CreateColumnMerge(board, reply).Some?
    ensures AllTasks(CreateColumnMerge(board, reply).value.columns) == AllTasks(board.value.columns)
  {
    if reply.Success? {
      var c := reply.body;
      FlatMapAppendOne(board.value.columns, Column(c.id, c.name, c.position, c.boardId, []), TasksOf);
    }
  }

  /** The column-level step of `deleteTask`'s merge. */
  function DropFrom(c: Column, taskId: string): Column
  {
    c.(tasks := RemoveTask(c.tasks, taskId))
  }

  /** Merge of a deleted task (src/contexts/kanban-context.tsx:343-352): the id
      is filtered out of every column, so it no longer occurs on the board. */
  function DeleteTaskMerge(board: Option<Board>, taskId: string, deleted: bool): (r: Option<Board>)
    ensures board.None? || !deleted ==> r == board
    ensures board.Some? && deleted ==>
      && r.Some? && r.value.(columns := []) == board.value.(columns := [])
      && Occurrences(r.value.columns, taskId) == 0
      && |r.value.columns| == |board.value.columns|
      && forall i :: 0 <= i < |board.value.columns| ==> r.value.columns[i] == DropFrom(board.value.columns[i], taskId)
  {
    match board
    case Some(b) =>
      if !deleted then board
      else
        var cols := seq(|b.columns|, i requires 0 <= i < |b.columns| => DropFrom(b.columns[i], taskId));
        assert forall i :: 0 <= i < |cols| ==> CountId(cols[i].tasks, taskId) == 0 by {
          forall i | 0 <= i < |cols| ensures CountId(cols[i].tasks, taskId) == 0 {
            RemoveTaskCount(b.columns[i].tasks, taskId);
          }
        }
        OccurrencesZero(cols, taskId);
        Some(b.(columns := cols))
    case None => board
  }

  /** Deletion does not renumber: every other task stays in its column, as
      often as before and with its old position. */
  lemma DeleteKeepsOtherTasks(board: Option<Board>, taskId: string, i: nat, t: Task)
    requires board.Some? && i < |board.value.columns| && t.id != taskId
    ensures multiset(DeleteTaskMerge(board, taskId, true).value.columns[i].tasks)[t]
         == multiset(board.value.columns[i].tasks)[t]
  {
    RemoveTaskSpec(board.value.columns[i].tasks, taskId);
  }

  /** Dropping a task that was just appended restores the column. */
  lemma DropUndoesAdd(c: Column, columnId: string, t: Task)
    requires forall j :: 0 <= j < |c.tasks| ==> c.tasks[j].id != t.id
    ensures DropFrom(AddTo(c, columnId, t), t.id) == c
  {
    RemoveAbsent(c.tasks, t.id);
    if c.id == columnId {
      FilterAppend(c.tasks, [t], NotId(t.id));
      assert Filter([t], NotId(t.id)) == [];
    }
  }

  /** Deleting a freshly created task undoes its creation. */
  lemma DeleteUndoesCreate(board: Option<Board>, columnId: string, t: Task)
    requires board.Some? && LookupTask(board.value.columns, t.id).None?
    ensures DeleteTaskMerge(CreateTaskMerge(board, columnId, Success(t)), t.id, true) == board
  {
    var b := board.value;
    NotOnBoard(b.columns, t.id);
    var created := CreateTaskMerge(board, columnId, Success(t)).value;
    var back := DeleteTaskMerge(Some(created), t.id, true).value;
    forall i | 0 <= i < |b.columns| ensures back.columns[i] == b.columns[i] {
      assert created.columns[i] == AddTo(b.columns[i], columnId, t);
      DropUndoesAdd(b.columns[i], columnId, t);
    }
    assert back.columns == b.columns;
  }

  /** Dropping an id twice is dropping it once. */
  lemma DropTwice(c: Column, taskId: string)
    ensures DropFrom(DropFrom(c, taskId), taskId) == DropFrom(c, taskId)
  {
    var once := RemoveTask(c.tasks, taskId);
    assert forall j :: 0 <= j < |once| ==> once[j] in once;
    RemoveAbsent(once, taskId);
  }

  /** Deleting twice is deleting once. */
  lemma DeleteIdempotent(board: Option<Board>, taskId: string)
    requires board.Some?
    ensures DeleteTaskMerge(DeleteTaskMerge(board, taskId, true), taskId, true) == DeleteTaskMerge(board, taskId, true)
  {
    var once := DeleteTaskMerge(board, taskId, true).value;
    var twice := DeleteTaskMerge(Some(once), taskId, true).value;
    forall i | 0 <= i < |once.columns| ensures twice.columns[i] == once.columns[i] {
      DropTwice(board.value.columns[i], taskId);
    }
    assert twice.columns == once.columns;
  }

  /** A parsed JSON task object: a field that is present overrides. */
  datatype TaskPatch = TaskPatch(
    id: Option<string>,
    title: Option<string>,
    description: Option<Option<string>>,
    position: Option<int>,
    columnId: Option<string>,
    createdAt: Option<int>,
    updatedAt: Option<int>)

  function Pick<T>(field: Option<T>, current: T): T
  {
    match field
    case Some(v) => v
    case None => current
  }

  /** `{ ...task, ...updatedTask }` */
  function Spread(t: Task, p: TaskPatch): (r: Task)
    ensures p.id.None? ==> r.id == t.id
    ensures p.id.Some? ==> r.id == p.id.value
    ensures p.title.None? ==> r.title == t.title
    ensures p.title.Some? ==> r.title == p.title.value
    ensures p.description.None? ==> r.description == t.description
    ensures p.description.Some? ==> r.description == p.description.value
    ensures p.position.None? ==> r.position == t.position
    ensures p.position.Some? ==> r.position == p.position.value
    ensures p.columnId.None? ==> r.columnId == t.columnId
    ensures p.columnId.Some? ==> r.columnId == p.columnId.value
    ensures p.createdAt.None? ==> r.createdAt == t.createdAt
    ensures p.createdAt.Some? ==> r.createdAt == p.createdAt.value
    ensures p.updatedAt.None? ==> r.updatedAt == t.updatedAt
    ensures p.updatedAt.Some? ==> r.updatedAt == p.updatedAt.value
  {
    Task(Pick(p.id, t.id), Pick(p.title, t.title), Pick(p.description, t.description),
         Pick(p.position, t.position), Pick(p.columnId, t.columnId),
         Pick(p.createdAt, t.createdAt), Pick(p.updatedAt, t.updatedAt))
  }

  /** The task-level step of `updateTask`'s merge. */
  function PatchIf(t: Task, taskId: string, p: TaskPatch): Task
  {
    if t.id == taskId then Spread(t, p) else t
  }

  /** Merge of an updated task (src/contexts/kanban-context.tsx:381-394):
      every task carrying `taskId` is replaced, in place, by the field-merge
      of itself and the reply; every other task and every column is kept. A
      reply that changes `columnId` does not move the task to another list. */
  function UpdateTaskMerge(board: Option<Board>, taskId: string, reply: Reply<TaskPatch>): (r: Option<Board>)
    ensures board.None? || reply.Failure? ==> r == board
    ensures board.Some? && reply.Success? ==>
      var b := board.value;
      && r.Some? && r.value.(columns := []) == b.(columns := [])
      && |r.value.columns| == |b.columns|
      && forall i :: 0 <= i < |b.columns| ==>
           && r.value.columns[i].(tasks := []) == b.columns[i].(tasks := [])
           && |r.value.columns[i].tasks| == |b.columns[i].tasks|
           && forall j :: 0 <= j < |b.columns[i].tasks| ==>
                && (b.columns[i].tasks[j].id != taskId ==> r.value.columns[i].tasks[j] == b.columns[i].tasks[j])
                && (b.columns[i].tasks[j].id == taskId ==> r.value.columns[i].tasks[j] == Spread(b.columns[i].tasks[j], reply.body))
  {
    match (board, reply)
    case (Some(b), Success(p)) =>
      Some(b.(columns := seq(|b.columns|, i requires 0 <= i < |b.columns| =>
        b.columns[i].(tasks := seq(|b.columns[i].tasks|, j requires 0 <= j < |b.columns[i].tasks| =>
          PatchIf(b.columns[i].tasks[j], taskId, p))))))
    case _ => board
  }

  /** Merging the same reply twice changes nothing more than merging it once. */
  lemma UpdateIdempotent(board: Option<Board>, taskId: string, p: TaskPatch)
    ensures UpdateTaskMerge(UpdateTaskMerge(board, taskId, Success(p)), taskId, Success(p))
         == UpdateTaskMerge(board, taskId, Success(p))
  {
    if board.Some? {
      var b := board.value;
      var once := UpdateTaskMerge(board, taskId, Success(p)).value;
      var twice := UpdateTaskMerge(Some(once), taskId, Success(p)).value;
      forall i | 0 <= i < |once.columns| ensures twice.columns[i] == once.columns[i] {
        forall j | 0 <= j < |once.columns[i].tasks| ensures twice.columns[i].tasks[j] == once.columns[i].tasks[j] {
          var t := b.columns[i].tasks[j];
          assert once.columns[i].tasks[j] == PatchIf(t, taskId, p);
          assert twice.columns[i].tasks[j] == PatchIf(PatchIf(t, taskId, p), taskId, p);
        }
        assert twice.columns[i].tasks == once.columns[i].tasks;
      }
      assert twice.columns == once.columns;
    }
  }
}
