/** An abstract task store standing in for the database the API routes
    write to, and the workspace access check they share
    (src/lib/workspace.ts:5-29). Tasks and columns are both rows that hang
    off a parent (a column, resp. a board) at an integer position. */
module Store {
  import opened Basics

  /** A positioned row: `parent` is `columnId` for a task and `boardId` for a
      column. */
  datatype Row<D> = Row(parent: string, position: int, data: D)

  datatype TaskData = TaskData(title: string, description: Option<string>)

  /** A workspace's owner and the users with a membership row. */
  datatype Workspace = Workspace(ownerId: string, members: set<string>)

  /** Everything above the tasks: columns (named rows under boards), boards
      (mapped to their workspace) and workspaces. */
  datatype Layout = Layout(columns: map<string, Row<string>>, boards: map<string, string>, workspaces: map<string, Workspace>)

  datatype Db = Db(tasks: map<string, Row<TaskData>>, layout: Layout)

  /** An HTTP response: status, JSON body when there is one, and the store as
      it stands afterwards. */
  datatype Response<T> = Response(status: nat, body: Option<T>, db: Db)

  /** JavaScript truthiness of a string field: present and non-empty. */
  predicate Truthy(v: Option<string>)
  {
    v.Some? && |v.value| > 0
  }

  /** Owner, or holder of a membership row. */
  predicate HasAccess(w: Workspace, user: string)
  {
    w.ownerId == user || user in w.members
  }

  datatype Guard = Pass | Unauthorized | Forbidden

  /** `getWorkspaceOrThrow(workspaceId)`: no session is "Unauthorized"; no
      workspace matching the id that the user owns or belongs to is
      "Forbidden". An absent `workspaceId` drops the id condition from the
      query, so any workspace the user can access lets the call through. */
  function WorkspaceGuard(layout: Layout, session: Option<string>, workspaceId: Option<string>): (r: Guard)
    ensures r == Unauthorized <==> session.None?
    ensures session.Some? && workspaceId.Some? ==>
      (r == Pass <==> workspaceId.value in layout.workspaces && HasAccess(layout.workspaces[workspaceId.value], session.value))
    ensures r == Pass ==> exists w :: w in layout.workspaces && HasAccess(layout.workspaces[w], session.value)
  {
    match session
    case None => Unauthorized
    case Some(user) =>
      match workspaceId
      case Some(id) =>
        if id in layout.workspaces && HasAccess(layout.workspaces[id], user) then Pass else Forbidden
      case None =>
        if exists w :: w in layout.workspaces && HasAccess(layout.workspaces[w], user) then Pass else Forbidden
  }

  /** Leaving `workspaceId` out never makes the access check stricter: whoever passes
      with some id also passes without one. */
  lemma MissingWorkspaceIdIsLax(layout: Layout, user: string, id: string)
    requires WorkspaceGuard(layout, Some(user), Some(id)) == Pass
    ensures WorkspaceGuard(layout, Some(user), None) == Pass
  {
    assert id in layout.workspaces && HasAccess(layout.workspaces[id], user);
  }

  /** The workspace reached from a column through its board, if the chain is
      complete. */
  function WorkspaceOf(layout: Layout, columnId: string): (r: Option<Workspace>)
    ensures r.Some? <==> columnId in layout.columns
                         && layout.columns[columnId].parent in layout.boards
                         && layout.boards[layout.columns[columnId].parent] in layout.workspaces
  {
    if columnId in layout.columns && layout.columns[columnId].parent in layout.boards then
      var ws := layout.boards[layout.columns[columnId].parent];
      if ws in layout.workspaces then Some(layout.workspaces[ws]) else None
    else None
  }

  /** Every column reaches a workspace (what the foreign keys guarantee). */
  ghost predicate ColumnsResolve(layout: Layout)
  {
    forall c :: c in layout.columns ==> WorkspaceOf(layout, c).Some?
  }

  /** The rows under `parent`: `where: { columnId }` / `where: { boardId }`. */
  function Members<D>(rows: map<string, Row<D>>, parent: string): set<string>
  {
    set k | k in rows && rows[k].parent == parent
  }

  /** `count({ where: { parent } })` */
  function Count<D>(rows: map<string, Row<D>>, parent: string): nat
  {
    |Members(rows, parent)|
  }

  /** Some row under `parent` sits at position `i`. */
  ghost predicate Taken<D>(rows: map<string, Row<D>>, parent: string, i: int)
  {
    exists k :: k in Members(rows, parent) && rows[k].position == i
  }

  /** The rows under `parent` occupy exactly the positions 0..n-1, one row
      per position. */
  ghost predicate Dense<D>(rows: map<string, Row<D>>, parent: string)
  {
    && (forall k :: k in Members(rows, parent) ==> 0 <= rows[k].position < Count(rows, parent))
    && (forall k1, k2 :: k1 in Members(rows, parent) && k2 in Members(rows, parent) && k1 != k2 ==>
          rows[k1].position != rows[k2].position)
    && (forall i :: 0 <= i < Count(rows, parent) ==> Taken(rows, parent, i))
  }

  /** Adding one fresh row under `parent` at position `Count` keeps the
      parent dense and raises its count by one. */
  lemma AppendKeepsDense<D>(rows: map<string, Row<D>>, parent: string, id: string, data: D)
    requires id !in rows
    requires Dense(rows, parent)
    ensures var after := rows[id := Row(parent, Count(rows, parent), data)];
            Dense(after, parent) && Count(after, parent) == Count(rows, parent) + 1
  {
    var n := Count(rows, parent);
    var after := rows[id := Row(parent, n, data)];
    var before := Members(rows, parent);
    assert Members(after, parent) == before + {id};
    assert forall k :: k in before ==> after[k] == rows[k];
    forall i | 0 <= i < n + 1
      ensures Taken(after, parent, i)
    {
      if i == n {
        assert id in Members(after, parent) && after[id].position == n;
      } else {
        assert Taken(rows, parent, i);
        var k :| k in before && rows[k].position == i;
        assert k in Members(after, parent) && after[k].position == i;
      }
    }
  }
}
