/** `PUT /api/tasks/reorder` (src/app/api/tasks/reorder/route.ts) and
    `PUT /api/columns/reorder` (src/app/api/columns/reorder/route.ts): the
    row named at index `i` of the order gets position `i`, all updates in one
    transaction. */
module Reorder {
  import opened Basics
  import opened Store

  /** One update per listed id, in list order, setting that row's position
      to the id's index in the list. An update of a missing row throws, and
      the transaction then leaves nothing behind. */
  function ReorderRows<D>(rows: map<string, Row<D>>, order: seq<string>): (r: Option<map<string, Row<D>>>)
    ensures r.None? <==> exists i :: 0 <= i < |order| && order[i] !in rows
    ensures r.Some? ==> r.value.Keys == rows.Keys
    decreases |order|
  {
    if |order| == 0 then Some(rows)
    else
      var last := |order| - 1;
      var prefix := order[..last];
      assert forall i :: 0 <= i < last ==> prefix[i] == order[i];
      match ReorderRows(rows, prefix)
      case None => None
      case Some(m) =>
        if order[last] !in m then None
        else Some(m[order[last] := m[order[last]].(position := last)])
  }

  /** A successful reorder touches only positions, and only of listed rows. */
  lemma {:induction false} ReorderRowsFrame<D>(rows: map<string, Row<D>>, order: seq<string>)
    requires ReorderRows(rows, order).Some?
    ensures var r := ReorderRows(rows, order).value;
            && (forall k :: k in rows ==> r[k].parent == rows[k].parent && r[k].data == rows[k].data)
            && (forall k :: k in rows && k !in order ==> r[k] == rows[k])
    decreases |order|
  {
    if |order| > 0 {
      var last := |order| - 1;
      var prefix := order[..last];
      assert forall i :: 0 <= i < last ==> prefix[i] == order[i];
      ReorderRowsFrame(rows, prefix);
      var r := ReorderRows(rows, order).value;
      forall k | k in rows && k !in order ensures r[k] == rows[k] {
        assert k !in prefix;
      }
    }
  }

  /** The row listed at `i` and not listed again later ends at position `i`. */
  lemma {:induction false} ReorderRowsLastWins<D>(rows: map<string, Row<D>>, order: seq<string>)
    requires ReorderRows(rows, order).Some?
    ensures var r := ReorderRows(rows, order).value;
            forall i :: 0 <= i < |order| && (forall j :: i < j < |order| ==> order[j] != order[i]) ==>
              r[order[i]].position == i
    decreases |order|
  {
    if |order| > 0 {
      var last := |order| - 1;
      var prefix := order[..last];
      assert forall i :: 0 <= i < last ==> prefix[i] == order[i];
      ReorderRowsLastWins(rows, prefix);
      var m := ReorderRows(rows, prefix).value;
      var r := ReorderRows(rows, order).value;
      assert r == m[order[last] := m[order[last]].(position := last)];
      forall i | 0 <= i < |order| && (forall j :: i < j < |order| ==> order[j] != order[i])
        ensures r[order[i]].position == i
      {
        if i < last {
          assert order[last] != order[i];
          assert forall j :: i < j < last ==> prefix[j] != prefix[i];
        }
      }
    }
  }

  /** After a successful reorder the row listed at `i`, when not listed
      again later, has position `i`; a row listed several times ends at its
      last index. Unlisted rows are untouched, and no row changes parent. */
  lemma ReorderRowsSpec<D>(rows: map<string, Row<D>>, order: seq<string>)
    requires ReorderRows(rows, order).Some?
    ensures var r := ReorderRows(rows, order).value;
            && (forall k :: k in rows ==> r[k].parent == rows[k].parent && r[k].data == rows[k].data)
            && (forall k :: k in rows && k !in order ==> r[k] == rows[k])
            && (forall i :: 0 <= i < |order| && (forall j :: i < j < |order| ==> order[j] != order[i]) ==>
                  r[order[i]].position == i)
  {
    ReorderRowsFrame(rows, order);
    ReorderRowsLastWins(rows, order);
  }

  /** All elements different. */
  ghost predicate Distinct(order: seq<string>)
  {
    forall i, j :: 0 <= i < j < |order| ==> order[i] != order[j]
  }

  /** A list of distinct ids has as many elements as its set of ids. */
  lemma {:induction false} DistinctCard(order: seq<string>)
    requires Distinct(order)
    ensures |set k | k in order| == |order|
  {
    if |order| > 0 {
      var last := |order| - 1;
      var prefix := order[..last];
      assert Distinct(prefix);
      DistinctCard(prefix);
      assert (set k | k in order) == (set k | k in prefix) + {order[last]};
      assert order[last] !in prefix;
    }
  }

  /** With distinct ids, the row listed at `i` ends at position `i`. */
  lemma DistinctOrderPositions<D>(rows: map<string, Row<D>>, order: seq<string>)
    requires Distinct(order)
    requires ReorderRows(rows, order).Some?
    ensures var after := ReorderRows(rows, order).value;
            && (forall k :: k in rows ==> after[k].parent == rows[k].parent)
            && (forall i :: 0 <= i < |order| ==> after[order[i]].position == i)
  {
    ReorderRowsSpec(rows, order);
  }

  /** When the order lists the rows under `parent`, each exactly once, the
      reorder succeeds and those rows end at positions exactly 0..n-1. */
  lemma ReorderPermutationDense<D>(rows: map<string, Row<D>>, order: seq<string>, parent: string)
    requires Distinct(order)
    requires forall k :: k in order <==> k in Members(rows, parent)
    ensures ReorderRows(rows, order).Some?
    ensures var after := ReorderRows(rows, order).value;
            Dense(after, parent) && Count(after, parent) == |order|
  {
    assert forall i :: 0 <= i < |order| ==> order[i] in rows by {
      forall i | 0 <= i < |order| ensures order[i] in rows {
        assert order[i] in Members(rows, parent);
      }
    }
    var after := ReorderRows(rows, order).value;
    DistinctOrderPositions(rows, order);
    assert Members(after, parent) == Members(rows, parent);
    assert Members(rows, parent) == set k | k in order;
    DistinctCard(order);
    forall k | k in Members(after, parent)
      ensures 0 <= after[k].position < |order|
    {
      var i :| 0 <= i < |order| && order[i] == k;
    }
    forall k1, k2 | k1 in Members(after, parent) && k2 in Members(after, parent) && k1 != k2
      ensures after[k1].position != after[k2].position
    {
      var i1 :| 0 <= i1 < |order| && order[i1] == k1;
      var i2 :| 0 <= i2 < |order| && order[i2] == k2;
    }
    forall i | 0 <= i < |order|
      ensures Taken(after, parent, i)
    {
      assert order[i] in Members(after, parent) && after[order[i]].position == i;
    }
  }

  /** The task reorder body. */
  datatype TaskOrderPayload = TaskOrderPayload(workspaceId: Option<string>, columnId: Option<string>, taskOrder: Option<seq<string>>)

  /** `PUT /api/tasks/reorder`. The listed tasks are not checked to belong
      to `columnId`, and their columns are left as they are. */
  function TaskReorderHandler(db: Db, session: Option<string>, p: TaskOrderPayload): (r: Response<bool>)
    ensures !(Truthy(p.workspaceId) && Truthy(p.columnId) && p.taskOrder.Some?) ==> r.status == 400 && r.db == db
    ensures r.status in {200, 400, 500}
    ensures r.status != 200 ==> r.db == db
    ensures r.db.layout == db.layout
    ensures r.status == 200 <==> && Truthy(p.workspaceId) && Truthy(p.columnId) && p.taskOrder.Some?
                                 && WorkspaceGuard(db.layout, session, p.workspaceId) == Pass
                                 && forall i :: 0 <= i < |p.taskOrder.value| ==> p.taskOrder.value[i] in db.tasks
    ensures r.status == 200 ==> r.db.tasks == ReorderRows(db.tasks, p.taskOrder.value).value
  {
    if !(Truthy(p.workspaceId) && Truthy(p.columnId) && p.taskOrder.Some?) then Response(400, None, db)
    else if WorkspaceGuard(db.layout, session, p.workspaceId) != Pass then Response(500, None, db)
    else
      match ReorderRows(db.tasks, p.taskOrder.value)
      case None => Response(500, None, db)
      case Some(tasks) => Response(200, Some(true), db.(tasks := tasks))
  }

  /** The column reorder body. */
  datatype ColumnOrderPayload = ColumnOrderPayload(workspaceId: Option<string>, boardId: Option<string>, columnOrder: Option<seq<string>>)

  /** `PUT /api/columns/reorder`. The listed columns are not checked to
      belong to `boardId`. */
  function ColumnReorderHandler(db: Db, session: Option<string>, p: ColumnOrderPayload): (r: Response<bool>)
    ensures !(Truthy(p.workspaceId) && Truthy(p.boardId) && p.columnOrder.Some?) ==> r.status == 400 && r.db == db
    ensures r.status in {200, 400, 500}
    ensures r.status != 200 ==> r.db == db
    ensures r.db.tasks == db.tasks
    ensures r.db.layout.boards == db.layout.boards && r.db.layout.workspaces == db.layout.workspaces
    ensures r.status == 200 <==> && Truthy(p.workspaceId) && Truthy(p.boardId) && p.columnOrder.Some?
                                 && WorkspaceGuard(db.layout, session, p.workspaceId) == Pass
                                 && forall i :: 0 <= i < |p.columnOrder.value| ==> p.columnOrder.value[i] in db.layout.columns
    ensures r.status == 200 ==> r.db.layout.columns == ReorderRows(db.layout.columns, p.columnOrder.value).value
  {
    if !(Truthy(p.workspaceId) && Truthy(p.boardId) && p.columnOrder.Some?) then Response(400, None, db)
    else if WorkspaceGuard(db.layout, session, p.workspaceId) != Pass then Response(500, None, db)
    else
      match ReorderRows(db.layout.columns, p.columnOrder.value)
      case None => Response(500, None, db)
      case Some(columns) => Response(200, Some(true), db.(layout := db.layout.(columns := columns)))
  }

  /** A task order listing every task of a column once leaves that column
      with positions exactly 0..n-1. */
  lemma TaskReorderDense(db: Db, session: Option<string>, p: TaskOrderPayload, columnId: string)
    requires Truthy(p.workspaceId) && Truthy(p.columnId) && p.taskOrder.Some?
    requires WorkspaceGuard(db.layout, session, p.workspaceId) == Pass
    requires Distinct(p.taskOrder.value)
    requires forall k :: k in p.taskOrder.value <==> k in Members(db.tasks, columnId)
    ensures var r := TaskReorderHandler(db, session, p);
            r.status == 200 && Dense(r.db.tasks, columnId)
  {
    ReorderPermutationDense(db.tasks, p.taskOrder.value, columnId);
  }

  /** A column order listing every column of a board once leaves that board
      with column positions exactly 0..n-1. */
  lemma ColumnReorderDense(db: Db, session: Option<string>, p: ColumnOrderPayload, boardId: string)
    requires Truthy(p.workspaceId) && Truthy(p.boardId) && p.columnOrder.Some?
    requires WorkspaceGuard(db.layout, session, p.workspaceId) == Pass
    requires Distinct(p.columnOrder.value)
    requires forall k :: k in p.columnOrder.value <==> k in Members(db.layout.columns, boardId)
    ensures var r := ColumnReorderHandler(db, session, p);
            r.status == 200 && Dense(r.db.layout.columns, boardId)
  {
    ReorderPermutationDense(db.layout.columns, p.columnOrder.value, boardId);
  }
}
