/** `POST /api/tasks/batch-update` (src/app/api/tasks/batch-update/route.ts):
    the server side of the client's flush. Each entry writes an absolute
    column and position for one task, inside one transaction. */
module BatchUpdate {
  import opened Basics
  import opened Store

  /** One element of `updates`. */
  datatype Entry = Entry(taskId: string, columnId: string, position: int)

  /** One entry applied to the row it names; `None` is a thrown error. The
      workspace is reached through the row's column and board; a broken chain
      throws when the route reads `task.Column.Board.Workspace`. Without
      access the row is left alone; with access the update sets the column and
      position, and throws on an unknown column (foreign key). */
  function StepRow(layout: Layout, user: string, row: Row<TaskData>, e: Entry): (r: Option<Row<TaskData>>)
    ensures r.Some? ==> r.value.data == row.data
    ensures WorkspaceOf(layout, row.parent).None? ==> r.None?
    ensures WorkspaceOf(layout, row.parent).Some? && !HasAccess(WorkspaceOf(layout, row.parent).value, user) ==> r == Some(row)
    ensures WorkspaceOf(layout, row.parent).Some? && HasAccess(WorkspaceOf(layout, row.parent).value, user) ==>
      && (r.Some? <==> e.columnId in layout.columns)
      && (r.Some? ==> r.value.parent == e.columnId && r.value.position == e.position)
  {
    match WorkspaceOf(layout, row.parent)
    case None => None
    case Some(w) =>
      if !HasAccess(w, user) then Some(row)
      else if e.columnId !in layout.columns then None
      else Some(row.(parent := e.columnId, position := e.position))
  }

  /** One iteration of the loop over `updates`: a missing task is skipped,
      otherwise the entry is applied to that task's row alone. */
  function Step(layout: Layout, user: string, tasks: map<string, Row<TaskData>>, e: Entry): (r: Option<map<string, Row<TaskData>>>)
    ensures e.taskId !in tasks ==> r == Some(tasks)
    ensures e.taskId in tasks ==> (r.Some? <==> StepRow(layout, user, tasks[e.taskId], e).Some?)
    ensures r.Some? ==> r.value.Keys == tasks.Keys
    ensures r.Some? ==> forall k :: k in tasks && k != e.taskId ==> r.value[k] == tasks[k]
    ensures r.Some? && e.taskId in tasks ==> r.value[e.taskId] == StepRow(layout, user, tasks[e.taskId], e).value
  {
    if e.taskId !in tasks then Some(tasks)
    else
      match StepRow(layout, user, tasks[e.taskId], e)
      case None => None
      case Some(row) => Some(tasks[e.taskId := row])
  }

  /** The whole loop, in list order; the first error aborts it. */
  function ApplyAll(layout: Layout, user: string, tasks: map<string, Row<TaskData>>, es: seq<Entry>): (r: Option<map<string, Row<TaskData>>>)
    ensures r.Some? ==> r.value.Keys == tasks.Keys
    ensures r.Some? ==> forall k :: k in tasks && (forall i :: 0 <= i < |es| ==> es[i].taskId != k) ==> r.value[k] == tasks[k]
    ensures r.Some? ==> forall k :: k in tasks ==> r.value[k].data == tasks[k].data
    decreases |es|
  {
    if |es| == 0 then Some(tasks)
    else
      match Step(layout, user, tasks, es[0])
      case None => None
      case Some(next) =>
        var r := ApplyAll(layout, user, next, es[1..]);
        assert r.Some? ==> forall k :: k in tasks && (forall i :: 0 <= i < |es| ==> es[i].taskId != k) ==> r.value[k] == tasks[k] by {
          if r.Some? {
            forall k | k in tasks && (forall i :: 0 <= i < |es| ==> es[i].taskId != k)
              ensures r.value[k] == tasks[k]
            {
              assert es[0].taskId != k;
              assert forall i :: 0 <= i < |es[1..]| ==> es[1..][i] == es[i + 1];
            }
          }
        }
        r
  }

  /** The route, given the session user and the parsed `updates` (`None` when
      it is not an array). The body on success is the `updated` count. */
  function BatchUpdateRoute(db: Db, session: Option<string>, updates: Option<seq<Entry>>): (r: Response<nat>)
    ensures session.None? ==> r.status == 401 && r.db == db
    ensures session.Some? && (updates.None? || |updates.value| == 0) ==> r.status == 400 && r.db == db
    ensures r.status in {200, 400, 401, 500}
    ensures r.status != 200 ==> r.db == db && r.body.None?
    ensures r.status == 200 ==> && session.Some? && updates.Some?
                                && r.body == Some(|updates.value|)
                                && r.db.layout == db.layout
                                && r.db.tasks.Keys == db.tasks.Keys
    ensures session.Some? && updates.Some? && |updates.value| > 0 ==>
      && (r.status == 200 <==> ApplyAll(db.layout, session.value, db.tasks, updates.value).Some?)
      && (r.status == 200 ==> r.db.tasks == ApplyAll(db.layout, session.value, db.tasks, updates.value).value)
  {
    match session
    case None => Response(401, None, db)
    case Some(user) =>
      if updates.None? || |updates.value| == 0 then Response(400, None, db)
      else
        match ApplyAll(db.layout, user, db.tasks, updates.value)
        case None => Response(500, None, db)
        case Some(tasks) => Response(200, Some(|updates.value|), db.(tasks := tasks))
  }

  /** A batch naming only unknown tasks changes nothing and still reports
      every entry as updated. */
  lemma UnknownTasksStillCounted(db: Db, user: string, es: seq<Entry>)
    requires |es| > 0
    requires forall i :: 0 <= i < |es| ==> es[i].taskId !in db.tasks
    ensures BatchUpdateRoute(db, Some(user), Some(es)) == Response(200, Some(|es|), db)
  {
    UnknownTasksSkipped(db.layout, user, db.tasks, es);
  }

  lemma {:induction false} UnknownTasksSkipped(layout: Layout, user: string, tasks: map<string, Row<TaskData>>, es: seq<Entry>)
    requires forall i :: 0 <= i < |es| ==> es[i].taskId !in tasks
    ensures ApplyAll(layout, user, tasks, es) == Some(tasks)
    decreases |es|
  {
    if |es| > 0 {
      assert es[0].taskId !in tasks;
      assert forall i :: 0 <= i < |es[1..]| ==> es[1..][i] == es[i + 1];
      UnknownTasksSkipped(layout, user, tasks, es[1..]);
    }
  }

  // ---------------------------------------------------------------------
  // Per-task view of a batch

  /** The filter predicate "entry for task `k`". */
  function ForTask(k: string): Entry -> bool
  {
    (e: Entry) => e.taskId == k
  }

  /** The entries of a batch that name task `k`, in batch order. */
  function EntriesFor(es: seq<Entry>, k: string): seq<Entry>
  {
    Filter(es, ForTask(k))
  }

  /** The entries for one task run against that task's row alone. */
  function RunRow(layout: Layout, user: string, row: Row<TaskData>, es: seq<Entry>): (r: Option<Row<TaskData>>)
    ensures r.Some? ==> r.value.data == row.data
    ensures r.Some? && row.parent in layout.columns ==> r.value.parent in layout.columns
    decreases |es|
  {
    if |es| == 0 then Some(row)
    else
      match StepRow(layout, user, row, es[0])
      case None => None
      case Some(next) => RunRow(layout, user, next, es[1..])
  }

  lemma EntriesForCons(e: Entry, rest: seq<Entry>, k: string)
    ensures EntriesFor([e] + rest, k) == (if e.taskId == k then [e] else []) + EntriesFor(rest, k)
  {
    FilterAppend([e], rest, ForTask(k));
  }

  lemma RunRowCons(layout: Layout, user: string, row: Row<TaskData>, e: Entry, rest: seq<Entry>)
    ensures RunRow(layout, user, row, [e] + rest) ==
            match StepRow(layout, user, row, e)
            case None => None
            case Some(next) => RunRow(layout, user, next, rest)
  {
    assert ([e] + rest)[1..] == rest;
  }

  /** One successful step hands every task's remaining run on unchanged:
      the stepped task has consumed its first entry, the others had none. */
  lemma RunsAfterStep(layout: Layout, user: string, tasks: map<string, Row<TaskData>>, e: Entry, rest: seq<Entry>, next: map<string, Row<TaskData>>)
    requires Step(layout, user, tasks, e) == Some(next)
    ensures next.Keys == tasks.Keys
    ensures forall k :: k in tasks ==>
              RunRow(layout, user, tasks[k], EntriesFor([e] + rest, k)) == RunRow(layout, user, next[k], EntriesFor(rest, k))
  {
    forall k | k in tasks
      ensures RunRow(layout, user, tasks[k], EntriesFor([e] + rest, k)) == RunRow(layout, user, next[k], EntriesFor(rest, k))
    {
      EntriesForCons(e, rest, k);
      if k == e.taskId {
        RunRowCons(layout, user, tasks[k], e, EntriesFor(rest, k));
        assert next[k] == StepRow(layout, user, tasks[k], e).value;
      } else {
        assert [] + EntriesFor(rest, k) == EntriesFor(rest, k);
        assert next[k] == tasks[k];
      }
    }
  }

  /** A batch decomposes into independent per-task runs: it succeeds iff
      every task's own entries run without error, and then each task ends as
      its own run leaves it. */
  lemma {:induction false} ApplyAllPerTask(layout: Layout, user: string, tasks: map<string, Row<TaskData>>, es: seq<Entry>)
    ensures ApplyAll(layout, user, tasks, es).Some? <==>
            forall k :: k in tasks ==> RunRow(layout, user, tasks[k], EntriesFor(es, k)).Some?
    ensures ApplyAll(layout, user, tasks, es).Some? ==>
            forall k :: k in tasks ==> ApplyAll(layout, user, tasks, es).value[k] == RunRow(layout, user, tasks[k], EntriesFor(es, k)).value
    decreases |es|
  {
    if |es| == 0 {
      forall k | k in tasks ensures RunRow(layout, user, tasks[k], EntriesFor(es, k)) == Some(tasks[k]) {
        assert EntriesFor(es, k) == [];
      }
    } else {
      var e, rest := es[0], es[1..];
      assert es == [e] + rest;
      match Step(layout, user, tasks, e)
      case None =>
        var u := e.taskId;
        EntriesForCons(e, rest, u);
        RunRowCons(layout, user, tasks[u], e, EntriesFor(rest, u));
        assert RunRow(layout, user, tasks[u], EntriesFor(es, u)).None?;
      case Some(next) =>
        assert ApplyAll(layout, user, tasks, es) == ApplyAll(layout, user, next, rest);
        ApplyAllPerTask(layout, user, next, rest);
        RunsAfterStep(layout, user, tasks, e, rest, next);
    }
  }

  /** A row whose workspace the user cannot access is frozen by any entries. */
  lemma {:induction false} InaccessibleRowFrozen(layout: Layout, user: string, row: Row<TaskData>, es: seq<Entry>)
    requires WorkspaceOf(layout, row.parent).Some? && !HasAccess(WorkspaceOf(layout, row.parent).value, user)
    ensures RunRow(layout, user, row, es) == Some(row)
    decreases |es|
  {
    if |es| > 0 {
      InaccessibleRowFrozen(layout, user, row, es[1..]);
    }
  }

  /** Running one task's entries a second time, from where the first run
      left it, changes nothing: the first applied entry overwrites column and
      position regardless of where the row started. */
  lemma RunRowIdempotent(layout: Layout, user: string, row: Row<TaskData>, es: seq<Entry>)
    requires ColumnsResolve(layout)
    requires RunRow(layout, user, row, es).Some?
    ensures RunRow(layout, user, RunRow(layout, user, row, es).value, es) == RunRow(layout, user, row, es)
  {
    var fin := RunRow(layout, user, row, es).value;
    if |es| > 0 {
      var w := WorkspaceOf(layout, row.parent).value;
      if !HasAccess(w, user) {
        InaccessibleRowFrozen(layout, user, row, es);
      } else {
        var first := StepRow(layout, user, row, es[0]).value;
        assert first.parent in layout.columns;
        assert fin.parent in layout.columns;
        var w' := WorkspaceOf(layout, fin.parent).value;
        if !HasAccess(w', user) {
          InaccessibleRowFrozen(layout, user, fin, es);
        } else {
          assert StepRow(layout, user, fin, es[0]) == Some(first);
        }
      }
    }
  }

  /** Sending the same batch twice leaves the store as the first send did. */
  lemma BatchIdempotent(db: Db, user: string, es: seq<Entry>)
    requires ColumnsResolve(db.layout)
    requires BatchUpdateRoute(db, Some(user), Some(es)).status == 200
    ensures var once := BatchUpdateRoute(db, Some(user), Some(es)).db;
            BatchUpdateRoute(once, Some(user), Some(es)) == Response(200, Some(|es|), once)
  {
    var tasks1 := ApplyAll(db.layout, user, db.tasks, es).value;
    ApplyAllPerTask(db.layout, user, db.tasks, es);
    forall k | k in tasks1
      ensures RunRow(db.layout, user, tasks1[k], EntriesFor(es, k)) == Some(tasks1[k])
    {
      RunRowIdempotent(db.layout, user, db.tasks[k], EntriesFor(es, k));
    }
    ApplyAllPerTask(db.layout, user, tasks1, es);
    var tasks2 := ApplyAll(db.layout, user, tasks1, es).value;
    assert tasks2 == tasks1;
  }

  /** With access to the workspaces involved, a task ends in the column and
      at the position of the last entry naming it. */
  lemma {:induction false} LastEntryWinsRow(layout: Layout, user: string, row: Row<TaskData>, es: seq<Entry>)
    requires |es| > 0
    requires RunRow(layout, user, row, es).Some?
    requires WorkspaceOf(layout, row.parent).Some? && HasAccess(WorkspaceOf(layout, row.parent).value, user)
    requires forall i :: 0 <= i < |es| ==> WorkspaceOf(layout, es[i].columnId).Some? && HasAccess(WorkspaceOf(layout, es[i].columnId).value, user)
    ensures RunRow(layout, user, row, es).value.parent == es[|es| - 1].columnId
    ensures RunRow(layout, user, row, es).value.position == es[|es| - 1].position
    decreases |es|
  {
    var next := StepRow(layout, user, row, es[0]).value;
    if |es| > 1 {
      assert forall i :: 0 <= i < |es[1..]| ==> es[1..][i] == es[i + 1];
      LastEntryWinsRow(layout, user, next, es[1..]);
    }
  }

  /** The entries naming `es[i].taskId`, when none comes after `i`, end with
      `es[i]`, and all of them come from `es`. */
  lemma LastEntryFor(es: seq<Entry>, i: nat)
    requires i < |es|
    requires forall j :: i < j < |es| ==> es[j].taskId != es[i].taskId
    ensures var mine := EntriesFor(es, es[i].taskId);
            && |mine| > 0 && mine[|mine| - 1] == es[i]
            && forall j :: 0 <= j < |mine| ==> mine[j] in es
  {
    var k := es[i].taskId;
    var before, after := es[..i], es[i + 1..];
    assert es == before + [es[i]] + after;
    FilterDropsAll(after, ForTask(k));
    FilterAppend(before + [es[i]], after, ForTask(k));
    FilterAppend(before, [es[i]], ForTask(k));
    var mine := EntriesFor(es, k);
    assert forall j :: 0 <= j < |mine| ==> mine[j] in mine;
  }

  lemma LastEntryWins(db: Db, user: string, es: seq<Entry>, i: nat)
    requires BatchUpdateRoute(db, Some(user), Some(es)).status == 200
    requires i < |es| && es[i].taskId in db.tasks
    requires forall j :: i < j < |es| ==> es[j].taskId != es[i].taskId
    requires WorkspaceOf(db.layout, db.tasks[es[i].taskId].parent).Some?
    requires HasAccess(WorkspaceOf(db.layout, db.tasks[es[i].taskId].parent).value, user)
    requires forall j :: 0 <= j < |es| ==> WorkspaceOf(db.layout, es[j].columnId).Some? && HasAccess(WorkspaceOf(db.layout, es[j].columnId).value, user)
    ensures var after := BatchUpdateRoute(db, Some(user), Some(es)).db.tasks[es[i].taskId];
            after.parent == es[i].columnId && after.position == es[i].position
  {
    var k := es[i].taskId;
    ApplyAllPerTask(db.layout, user, db.tasks, es);
    LastEntryFor(es, i);
    var mine := EntriesFor(es, k);
    LastEntryWinsRow(db.layout, user, db.tasks[k], mine);
  }
}
