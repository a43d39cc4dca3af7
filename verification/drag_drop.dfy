/** The board view's drag handling and its two flattenings of the board for
    the drag-and-drop widget (src/components/dashboard/kanban-board-view.tsx:66-137). */
module DragDrop {
  import opened Basics
  import opened Kanban
  import opened TaskMove

  /** The arguments of the `moveTask` call a drop issues. */
  datatype MoveRequest = MoveRequest(taskId: string, columnId: string, position: int)

  /** `handleDragEnd`: `activeId` is the dragged card, `overId` the drop
      target (absent when dropped outside any target). Task ids are tried
      before column ids: a drop on a card targets that card's stored
      `columnId` and `position`; a drop on a column appends; an id that is
      neither still issues a move, to position 0. */
  function HandleDragEnd(b: Board, activeId: string, overId: Option<string>): (r: Option<MoveRequest>)
    ensures overId.None? ==> r.None?
    ensures LookupTask(b.columns, activeId).None? ==> r.None?
    ensures overId.Some? && LookupTask(b.columns, activeId).Some? ==> r.Some? && r.value.taskId == activeId
    ensures overId.Some? && LookupTask(b.columns, activeId).Some? && LookupTask(b.columns, overId.value).Some? ==>
      var over := LookupTask(b.columns, overId.value).value;
      r.value.columnId == over.columnId && r.value.position == over.position
    ensures overId.Some? && LookupTask(b.columns, activeId).Some? && LookupTask(b.columns, overId.value).None? ==>
      r.value.columnId == overId.value
      && r.value.position == match FindColumn(b.columns, overId.value)
                             case Some(i) => |b.columns[i].tasks|
                             case None => 0
  {
    match overId
    case None => None
    case Some(target) =>
      if LookupTask(b.columns, activeId).None? then None
      else
        match LookupTask(b.columns, target)
        case Some(t) => Some(MoveRequest(activeId, t.columnId, t.position))
        case None =>
          var count := match FindColumn(b.columns, target)
                       case Some(i) => |b.columns[i].tasks|
                       case None => 0;
          Some(MoveRequest(activeId, target, count))
  }

  /** Dropping a card onto a column (not onto a card) makes it that column's
      last card once the move is applied — also when it already was in that
      column. */
  lemma DropOnColumnAppends(b: Board, activeId: string, columnId: string)
    requires LookupTask(b.columns, activeId).Some?
    requires LookupTask(b.columns, columnId).None?
    requires FindColumn(b.columns, columnId).Some?
    ensures var m := HandleDragEnd(b, activeId, Some(columnId)).value;
            var ti := FindColumn(b.columns, columnId).value;
            var target := MoveTask(b, m.taskId, m.columnId, m.position).columns[ti].tasks;
            && |target| > 0
            && target[|target| - 1].id == activeId
            && target[|target| - 1].columnId == columnId
  {
    var ti := FindColumn(b.columns, columnId).value;
    var rest := RemoveTask(b.columns[ti].tasks, activeId);
    assert |rest| <= |b.columns[ti].tasks|;
    assert SpliceIndex(|rest|, |b.columns[ti].tasks|) == |rest|;
  }

  /** `{ id: col.id, name: col.name }` */
  datatype ViewColumn = ViewColumn(id: string, name: string)

  /** `{ id: task.id, name: task.title, column: col.id, description: task.description }` */
  datatype ViewCard = ViewCard(id: string, name: string, column: string, description: Option<string>)

  /** `kanbanColumns`: one entry per board column, in board order. */
  function KanbanColumns(b: Board): (r: seq<ViewColumn>)
    ensures |r| == |b.columns|
    ensures forall i :: 0 <= i < |r| ==> r[i].id == b.columns[i].id && r[i].name == b.columns[i].name
  {
    seq(|b.columns|, i requires 0 <= i < |b.columns| => ViewColumn(b.columns[i].id, b.columns[i].name))
  }

  function CardsOf(c: Column): seq<ViewCard>
  {
    seq(|c.tasks|, j requires 0 <= j < |c.tasks| => ViewCard(c.tasks[j].id, c.tasks[j].title, c.id, c.tasks[j].description))
  }

  /** `kanbanTasks`: one card per task, column by column. */
  function KanbanTasks(b: Board): seq<ViewCard>
  {
    FlatMap(b.columns, CardsOf)
  }

  /** The card list has one entry per task on the board, in column-then-task
      order: task `j` of column `i` sits at the same index as in
      `AllTasks`, tagged with its owning column's id and named by its title. */
  lemma KanbanTasksLayout(b: Board, i: nat, j: nat)
    requires i < |b.columns| && j < |b.columns[i].tasks|
    ensures |KanbanTasks(b)| == |AllTasks(b.columns)|
    ensures var k := Offset(b.columns, TasksOf, i) + j;
            && k < |AllTasks(b.columns)|
            && AllTasks(b.columns)[k] == b.columns[i].tasks[j]
            && KanbanTasks(b)[k] == ViewCard(b.columns[i].tasks[j].id, b.columns[i].tasks[j].title,
                                             b.columns[i].id, b.columns[i].tasks[j].description)
  {
    SameShapeOffsets(b.columns, CardsOf, TasksOf);
    FlatMapIndex(b.columns, CardsOf, i, j);
    FlatMapIndex(b.columns, TasksOf, i, j);
  }
}
