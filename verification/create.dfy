/** `POST /api/tasks` (src/app/api/tasks/route.ts) and `POST /api/columns`
    (src/app/api/columns/route.ts): append a row at position = current
    count. Neither handler catches errors, so every failure is a 500. The
    fresh id the database generates is a parameter. */
module Create {
  import opened Basics
  import opened Store

  /** The stored record returned as the response body. */
  datatype Created<D> = Created(id: string, row: Row<D>)

  datatype TaskPayload = TaskPayload(title: string, description: Option<string>, columnId: string, workspaceId: Option<string>)

  /** `POST /api/tasks`: access check first, then count the column's tasks
      and create the task at that position. A taken id (unique key) or an
      unknown column (foreign key) throws. */
  function CreateTaskHandler(db: Db, session: Option<string>, p: TaskPayload, newId: string): (r: Response<Created<TaskData>>)
    ensures WorkspaceGuard(db.layout, session, p.workspaceId) != Pass ==> r.status == 500 && r.db == db
    ensures r.status in {200, 500}
    ensures r.status != 200 ==> r.db == db && r.body.None?
    ensures r.status == 200 <==> && WorkspaceGuard(db.layout, session, p.workspaceId) == Pass
                                 && newId !in db.tasks && p.columnId in db.layout.columns
    ensures r.status == 200 ==>
      var row := Row(p.columnId, Count(db.tasks, p.columnId), TaskData(p.title, p.description));
      && r.body == Some(Created(newId, row))
      && r.db == db.(tasks := db.tasks[newId := row])
  {
    if WorkspaceGuard(db.layout, session, p.workspaceId) != Pass then Response(500, None, db)
    else
      var position := Count(db.tasks, p.columnId);
      if newId in db.tasks || p.columnId !in db.layout.columns then Response(500, None, db)
      else
        var row := Row(p.columnId, position, TaskData(p.title, p.description));
        Response(200, Some(Created(newId, row)), db.(tasks := db.tasks[newId := row]))
  }

  /** A created task lands at the end of a dense column, which stays dense
      with one more task; no other column changes. */
  lemma CreateTaskKeepsDense(db: Db, session: Option<string>, p: TaskPayload, newId: string)
    requires CreateTaskHandler(db, session, p, newId).status == 200
    requires Dense(db.tasks, p.columnId)
    ensures var after := CreateTaskHandler(db, session, p, newId).db.tasks;
            && Dense(after, p.columnId)
            && Count(after, p.columnId) == Count(db.tasks, p.columnId) + 1
            && forall c :: c != p.columnId ==> Members(after, c) == Members(db.tasks, c)
  {
    AppendKeepsDense(db.tasks, p.columnId, newId, TaskData(p.title, p.description));
  }

  /** The column create body; `position` is sent by the client but not read. */
  datatype ColumnPayload = ColumnPayload(name: string, boardId: string, workspaceId: Option<string>, position: Option<int>)

  /** `POST /api/columns`: access check first, then count the board's
      columns and create the column at that position. */
  function CreateColumnHandler(db: Db, session: Option<string>, p: ColumnPayload, newId: string): (r: Response<Created<string>>)
    ensures WorkspaceGuard(db.layout, session, p.workspaceId) != Pass ==> r.status == 500 && r.db == db
    ensures r.status in {200, 500}
    ensures r.status != 200 ==> r.db == db && r.body.None?
    ensures r.status == 200 <==> && WorkspaceGuard(db.layout, session, p.workspaceId) == Pass
                                 && newId !in db.layout.columns && p.boardId in db.layout.boards
    ensures r.status == 200 ==>
      var row := Row(p.boardId, Count(db.layout.columns, p.boardId), p.name);
      && r.body == Some(Created(newId, row))
      && r.db == db.(layout := db.layout.(columns := db.layout.columns[newId := row]))
  {
    if WorkspaceGuard(db.layout, session, p.workspaceId) != Pass then Response(500, None, db)
    else
      var position := Count(db.layout.columns, p.boardId);
      if newId in db.layout.columns || p.boardId !in db.layout.boards then Response(500, None, db)
      else
        var row := Row(p.boardId, position, p.name);
        Response(200, Some(Created(newId, row)), db.(layout := db.layout.(columns := db.layout.columns[newId := row])))
  }

  /** The client-sent position has no effect on the outcome. */
  lemma CreateColumnIgnoresPosition(db: Db, session: Option<string>, p: ColumnPayload, newId: string, position: Option<int>)
    ensures CreateColumnHandler(db, session, p, newId) == CreateColumnHandler(db, session, p.(position := position), newId)
  {
  }

  /** A created column lands at the end of a dense board, which stays dense
      with one more column. */
  lemma CreateColumnKeepsDense(db: Db, session: Option<string>, p: ColumnPayload, newId: string)
    requires CreateColumnHandler(db, session, p, newId).status == 200
    requires Dense(db.layout.columns, p.boardId)
    ensures var after := CreateColumnHandler(db, session, p, newId).db.layout.columns;
            && Dense(after, p.boardId)
            && Count(after, p.boardId) == Count(db.layout.columns, p.boardId) + 1
  {
    AppendKeepsDense(db.layout.columns, p.boardId, newId, p.name);
  }
}
