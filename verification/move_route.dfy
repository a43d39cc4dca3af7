/** `PUT /api/tasks/move` (src/app/api/tasks/move/route.ts): open a slot in
    the target column by shifting, then place the task in it. The two writes
    are separate statements, not a transaction: when the second one throws,
    the shift has already happened. */
module MoveRoute {
  import opened Basics
  import opened Store

  /** `newIndex` as the body carries it. The payload check tells apart only
      a missing field, so an explicit `null` gets past it. */
  datatype IndexField = Absent | Null | Index(value: int)

  /** The parsed JSON body; for the ids `None` is a missing or null field,
      both of which the payload check rejects. */
  datatype MovePayload = MovePayload(workspaceId: Option<string>, taskId: Option<string>, toColumnId: Option<string>, newIndex: IndexField)

  /** The payload check: every id truthy and `newIndex` not missing (0 and
      `null` both pass). */
  predicate ValidMove(p: MovePayload)
  {
    Truthy(p.workspaceId) && Truthy(p.taskId) && Truthy(p.toColumnId) && !p.newIndex.Absent?
  }

  /** Whether `updateMany` touches `row`. */
  predicate Shifted(row: Row<TaskData>, columnId: string, newIndex: int)
  {
    row.parent == columnId && row.position >= newIndex
  }

  /** The shift that opens the slot: every task of `columnId` at or past
      `newIndex` moves up by one position; no other task is written. */
  function ShiftFrom(tasks: map<string, Row<TaskData>>, columnId: string, newIndex: int): (r: map<string, Row<TaskData>>)
    ensures r.Keys == tasks.Keys
    ensures forall k :: k in tasks && Shifted(tasks[k], columnId, newIndex) ==> r[k] == tasks[k].(position := tasks[k].position + 1)
    ensures forall k :: k in tasks && !Shifted(tasks[k], columnId, newIndex) ==> r[k] == tasks[k]
  {
    map k | k in tasks :: if Shifted(tasks[k], columnId, newIndex) then tasks[k].(position := tasks[k].position + 1) else tasks[k]
  }

  /** The route. Any thrown error (guard, missing task, unknown column) is a
      500; the success body is `{ success: true }`. A `null` index makes the
      shift itself throw, since the database rejects `null` as the lower
      bound of the position filter, so nothing is written. */
  function MoveRouteHandler(db: Db, session: Option<string>, p: MovePayload): (r: Response<bool>)
    ensures !ValidMove(p) ==> r.status == 400 && r.db == db
    ensures ValidMove(p) && WorkspaceGuard(db.layout, session, p.workspaceId) != Pass ==> r.status == 500 && r.db == db
    ensures r.status in {200, 400, 500}
    ensures r.db.layout == db.layout
    ensures r.status == 200 <==> && ValidMove(p)
                                 && WorkspaceGuard(db.layout, session, p.workspaceId) == Pass
                                 && p.newIndex.Index?
                                 && p.taskId.value in db.tasks
                                 && p.toColumnId.value in db.layout.columns
    ensures ValidMove(p) && WorkspaceGuard(db.layout, session, p.workspaceId) == Pass && p.newIndex.Null? ==>
      r.status == 500 && r.db == db
    ensures ValidMove(p) && WorkspaceGuard(db.layout, session, p.workspaceId) == Pass && p.newIndex.Index? && r.status == 500 ==>
      r.db.tasks == ShiftFrom(db.tasks, p.toColumnId.value, p.newIndex.value)
    ensures r.status == 200 ==>
      var id, to, idx := p.taskId.value, p.toColumnId.value, p.newIndex.value;
      && r.body == Some(true)
      && r.db.tasks.Keys == db.tasks.Keys
      && r.db.tasks[id] == db.tasks[id].(parent := to, position := idx)
      && (forall k :: k in db.tasks && k != id && !Shifted(db.tasks[k], to, idx) ==> r.db.tasks[k] == db.tasks[k])
      && (forall k :: k in db.tasks && k != id && Shifted(db.tasks[k], to, idx) ==>
            r.db.tasks[k] == db.tasks[k].(position := db.tasks[k].position + 1))
  {
    if !ValidMove(p) then Response(400, None, db)
    else if WorkspaceGuard(db.layout, session, p.workspaceId) != Pass then Response(500, None, db)
    else if p.newIndex.Null? then Response(500, None, db)
    else
      var id, to, idx := p.taskId.value, p.toColumnId.value, p.newIndex.value;
      var shifted := ShiftFrom(db.tasks, to, idx);
      if id !in shifted || to !in db.layout.columns then Response(500, None, db.(tasks := shifted))
      else Response(200, Some(true), db.(tasks := shifted[id := shifted[id].(parent := to, position := idx)]))
  }

  /** What a successful move does to the rows, stated per row: `id` lands in
      `to` at `idx`, and every other row of `to` at or past `idx` moves up by
      one. */
  ghost predicate ShiftedInsert(rows: map<string, Row<TaskData>>, after: map<string, Row<TaskData>>, to: string, id: string, idx: int)
  {
    && after.Keys == rows.Keys
    && id in rows
    && after[id].parent == to && after[id].position == idx
    && forall k :: k in rows && k != id ==>
         after[k].parent == rows[k].parent
         && after[k].position == (if Shifted(rows[k], to, idx) then rows[k].position + 1 else rows[k].position)
  }

  lemma ShiftedInsertMembers(rows: map<string, Row<TaskData>>, after: map<string, Row<TaskData>>, to: string, id: string, idx: int)
    requires ShiftedInsert(rows, after, to, id, idx)
    requires rows[id].parent != to
    ensures Members(after, to) == Members(rows, to) + {id}
    ensures id !in Members(rows, to)
    ensures Count(after, to) == Count(rows, to) + 1
  {
  }

  lemma ShiftedInsertRange(rows: map<string, Row<TaskData>>, after: map<string, Row<TaskData>>, to: string, id: string, idx: int)
    requires ShiftedInsert(rows, after, to, id, idx)
    requires rows[id].parent != to
    requires Dense(rows, to) && 0 <= idx <= Count(rows, to)
    ensures forall k :: k in Members(after, to) ==> 0 <= after[k].position < Count(rows, to) + 1
  {
    ShiftedInsertMembers(rows, after, to, id, idx);
    forall k | k in Members(after, to)
      ensures 0 <= after[k].position < Count(rows, to) + 1
    {
      if k != id {
        assert k in Members(rows, to);
      }
    }
  }

  lemma ShiftedInsertDistinct(rows: map<string, Row<TaskData>>, after: map<string, Row<TaskData>>, to: string, id: string, idx: int)
    requires ShiftedInsert(rows, after, to, id, idx)
    requires rows[id].parent != to
    requires Dense(rows, to)
    ensures forall k1, k2 :: k1 in Members(after, to) && k2 in Members(after, to) && k1 != k2 ==>
              after[k1].position != after[k2].position
  {
    ShiftedInsertMembers(rows, after, to, id, idx);
    forall k1, k2 | k1 in Members(after, to) && k2 in Members(after, to) && k1 != k2
      ensures after[k1].position != after[k2].position
    {
      if k1 != id && k2 != id {
        assert k1 in Members(rows, to) && k2 in Members(rows, to);
        assert rows[k1].position != rows[k2].position;
      } else if k1 != id {
        assert k1 in Members(rows, to);
      } else {
        assert k2 in Members(rows, to);
      }
    }
  }

  lemma ShiftedInsertTaken(rows: map<string, Row<TaskData>>, after: map<string, Row<TaskData>>, to: string, id: string, idx: int)
    requires ShiftedInsert(rows, after, to, id, idx)
    requires rows[id].parent != to
    requires Dense(rows, to) && 0 <= idx <= Count(rows, to)
    ensures forall i :: 0 <= i < Count(rows, to) + 1 ==> Taken(after, to, i)
  {
    ShiftedInsertMembers(rows, after, to, id, idx);
    forall i | 0 <= i < Count(rows, to) + 1
      ensures Taken(after, to, i)
    {
      if i == idx {
        assert id in Members(after, to) && after[id].position == i;
      } else {
        var j := if i < idx then i else i - 1;
        assert Taken(rows, to, j);
        var k :| k in Members(rows, to) && rows[k].position == j;
        assert k in Members(after, to) && after[k].position == i;
      }
    }
  }

  /** A move of a task from another column into a column whose positions are
      exactly 0..n-1, at an index in 0..n, leaves that column with positions
      exactly 0..n. */
  lemma MoveIntoDenseColumn(db: Db, session: Option<string>, p: MovePayload)
    requires MoveRouteHandler(db, session, p).status == 200
    requires Dense(db.tasks, p.toColumnId.value)
    requires 0 <= p.newIndex.value <= Count(db.tasks, p.toColumnId.value)
    requires db.tasks[p.taskId.value].parent != p.toColumnId.value
    ensures var after := MoveRouteHandler(db, session, p).db.tasks;
            && Dense(after, p.toColumnId.value)
            && Count(after, p.toColumnId.value) == Count(db.tasks, p.toColumnId.value) + 1
  {
    var id, to, idx := p.taskId.value, p.toColumnId.value, p.newIndex.value;
    var after := MoveRouteHandler(db, session, p).db.tasks;
    assert ShiftedInsert(db.tasks, after, to, id, idx);
    ShiftedInsertMembers(db.tasks, after, to, id, idx);
    ShiftedInsertRange(db.tasks, after, to, id, idx);
    ShiftedInsertDistinct(db.tasks, after, to, id, idx);
    ShiftedInsertTaken(db.tasks, after, to, id, idx);
  }

  /** When the task to move does not exist the route fails, yet the target
      column has already been shifted: its rows at or past `newIndex` moved
      up by one, leaving a hole at `newIndex`. */
  lemma MissingTaskLeavesShift(db: Db, session: Option<string>, p: MovePayload)
    requires ValidMove(p) && WorkspaceGuard(db.layout, session, p.workspaceId) == Pass
    requires p.newIndex.Index?
    requires p.taskId.value !in db.tasks
    ensures var r := MoveRouteHandler(db, session, p);
            && r.status == 500
            && forall k :: k in db.tasks && Shifted(db.tasks[k], p.toColumnId.value, p.newIndex.value) ==>
                 r.db.tasks[k].position == db.tasks[k].position + 1
  {
  }
}
