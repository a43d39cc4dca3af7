# Kanvas board and sync logic in Dafny

This project models the core of Kanvas, a Kanban board web application. It
covers two sides.

On the client:

- the optimistic board snapshot and its `moveTask` reducer;
- the per-task coalescing queue of pending placements;
- the flush/retry state machine that sends that queue to the server, and the
  page-exit beacon;
- the merges of create, delete and update replies into the board;
- the drag-and-drop handler that turns a drop into a `moveTask` call, and the
  two flattenings of the board handed to the drag-and-drop widget.

On the server:

- the position rules of the batch-update, move, reorder and create routes,
  written over an abstract store;
- the two board-to-view transforms.

In the store, tasks and columns are rows hanging off a parent (a column, a
board) at an integer position, and the workspace access check is a function
of the session and the workspace id.

Everything is pure. Every datatype is immutable, and every operation is a
function whose contract says what it does. Lemmas relate operations to one
another. Examples:

- a successful move (known task, known target column) leaves the task on
  the board exactly once;
- enqueueing twice for one task equals enqueueing once;
- a batch splits into independent per-task runs, and resending it changes
  nothing;
- a permutation reorder, a create and a cross-column move each keep a column
  dense.

Modules follow the source layout:

- `Basics`: option, `filter`, `flatMap`.
- `Kanban`: the board types and lookups.
- `TaskMove`: `moveTask`.
- `PendingQueue`.
- `Sync`.
- `Client`: the context's entry points and merges.
- `DragDrop`.
- `Transform`.
- `Store`: rows, workspaces, the access check, density.
- `BatchUpdate`, `MoveRoute`, `Reorder`, `Create`: the routes.
- `Scenarios`: concrete runs.

Nothing in the code keeps a column's task positions at exactly `0..n-1`
across all operations. The client renumbers after a move
(src/contexts/kanban-context.tsx:216-219), yet positions drift in three
places:

- `moveTask` renumbers only the target column. The source column keeps its
  gap (`Scenarios.ClientMoveLeavesSourceGap`).
- `deleteTask` does not renumber.
- The server move route, used within one column, leaves a hole
  (`Scenarios.ServerSameColumnMoveLeavesHole`).

Density is therefore proved only locally, for the operations that keep it.

On a successful flush the code clears the pending updates
(src/contexts/kanban-context.tsx:141-142). It clears the queue as it stands
when the response arrives, not the batch that was sent. Entries queued while
the request was in flight are therefore lost
(`Sync.SuccessDropsInFlightUpdate`).

## Model

| member | source | states |
|---|---|---|
| `Basics.Filter` | src/contexts/kanban-context.tsx:197 | `filter` keeps only elements the predicate accepts and never grows the list |
| `Basics.FilterMultiset` | src/contexts/kanban-context.tsx:197 | every accepted element occurs in the result exactly as often as in the input, and no rejected element occurs |
| `Basics.FlatMapIndex` | src/contexts/kanban-context.tsx:200-202 | element `j` of the piece of `xs[i]` sits at that piece's offset plus `j` in the flattened list; the pieces are laid out whole, in order |
| `Kanban.FindTask` | src/contexts/kanban-context.tsx:200-202 | `find` returns nothing iff no task carries the id; otherwise it returns the first one that does |
| `Kanban.FindColumn` | src/contexts/kanban-context.tsx:206 | the column lookup fails iff no column carries the id; otherwise it is the first such column |
| `Kanban.RemoveTaskSpec` | src/contexts/kanban-context.tsx:195-198 | filtering an id out leaves no task with that id, keeps every other task exactly as often, and keeps membership of all others |
| `Kanban.RemoveAbsent` | src/contexts/kanban-context.tsx:197 | filtering out an id that does not occur returns the list unchanged |
| `TaskMove.SpliceIndex` | src/contexts/kanban-context.tsx:214 | the index `splice` inserts at: an in-range start as given, a start past the end at the end, a negative start counted back from the end, and 0 when it reaches back past the start |
| `TaskMove.MoveTask` | src/contexts/kanban-context.tsx:192-222 | an unknown task or column gives back the board; otherwise the task lands in the target column at the clamped index with the new `columnId`; the target column is renumbered `0..n`; every other column, the source included, keeps its remaining tasks with their old positions |
| `TaskMove.RenumberedInsert` | src/contexts/kanban-context.tsx:209-219 | after the splice and renumbering, tasks before the insertion point keep their order, later ones shift by one, and every position equals its index |
| `TaskMove.MoveTaskLeavesOneCopy` | src/contexts/kanban-context.tsx:195-214 | after a successful move the task id occurs exactly once on the board, even if it occurred several times before |
| `PendingQueue.OtherTasks` | src/contexts/kanban-context.tsx:226 | no entry for the task survives the filter |
| `PendingQueue.Enqueue` | src/contexts/kanban-context.tsx:225-233 | the new entry is last, no earlier entry is for that task, and the queue grows by at most one |
| `PendingQueue.EnqueueKeepsOthers` | src/contexts/kanban-context.tsx:226-232 | every entry for another task is kept, exactly as often as before |
| `PendingQueue.EnqueueKeepsCoalesced` | src/contexts/kanban-context.tsx:225-233 | at most one entry per task is preserved by every enqueue |
| `PendingQueue.EnqueueReplaces` | src/contexts/kanban-context.tsx:225-233 | two enqueues for one task equal the second alone: the later placement replaces the earlier |
| `PendingQueue.EnqueueFresh` | src/contexts/kanban-context.tsx:225-233 | for a task not yet queued, enqueueing is a plain append that leaves the other entries in place and in order |
| `PendingQueue.EnqueueDropsQueued` | src/contexts/kanban-context.tsx:225-233 | for a task queued once, enqueueing removes that entry and appends the new one, the other entries staying in their order |
| `Sync.BeginFlush` | src/contexts/kanban-context.tsx:126-135 | the flush is skipped iff the queue is empty or a flush is in flight; otherwise the whole queue is sent and the syncing flag is raised |
| `Sync.FinishFlush` | src/contexts/kanban-context.tsx:137-156 | OK clears the queue and the counter; a failure keeps the queue and counts up, and on reaching 3 notifies once and resets; the flag is cleared on every path and the counter stays below 3 |
| `Sync.FailedAttempt` | src/contexts/kanban-context.tsx:126-156 | a failed timer tick keeps the queue and clears the flag |
| `Sync.FailStreakCounts` | src/contexts/kanban-context.tsx:146-153 | after `k` failures in a row the queue is unchanged, the counter is `(r+k) mod 3` and `(r+k) div 3` toasts were raised |
| `Sync.ThreeFailuresNotifyOnce` | src/contexts/kanban-context.tsx:148-153 | three failures from a fresh counter give exactly one toast, the same queue and a zero counter |
| `Sync.NoReentrantFlush` | src/contexts/kanban-context.tsx:127-129 | a flush started while another is in flight is always skipped |
| `Sync.SuccessDropsInFlightUpdate` | src/contexts/kanban-context.tsx:141-143 | an entry queued while a flush is in flight is not in the batch sent, yet the success clears it |
| `Sync.UnloadBeacons` | src/contexts/kanban-context.tsx:174-181 | page exit sends one beacon carrying the whole queue iff the queue is non-empty |
| `Client.MoveAction` | src/contexts/kanban-context.tsx:188-236 | without a board nothing happens; otherwise the board is moved and the requested placement is queued last, replacing older entries for the task; every entry for another task is kept as often as before; coalescing, the flag and the counter are kept |
| `Client.MoveOfUnknownTaskStillQueues` | src/contexts/kanban-context.tsx:204-233 | a move of a task not on the board leaves the board but still queues an entry |
| `Client.QueuedPositionIsTheRequestedOne` | src/contexts/kanban-context.tsx:209-233 | a move past the end lands the task last, at a smaller index, while the queue records the requested index |
| `Client.NotOnBoard` | src/contexts/kanban-context.tsx:200-202 | when the lookup finds no task with an id, no task in any column carries it |
| `Client.CreateTaskDescription` | src/contexts/kanban-context.tsx:250 | an empty description is sent as null; a non-empty one is sent as given |
| `Client.CreateTaskMerge` | src/contexts/kanban-context.tsx:255-275 | on success the returned task is appended to the matching column and to no other; on failure or without a board nothing changes |
| `Client.CreateColumnMerge` | src/contexts/kanban-context.tsx:304-316 | on success the returned column, with no tasks, is appended after the others |
| `Client.CreateColumnKeepsTasks` | src/contexts/kanban-context.tsx:310-316 | adding a column leaves the flattened task list unchanged |
| `Client.DeleteTaskMerge` | src/contexts/kanban-context.tsx:339-352 | on success the id is filtered out of every column and no longer occurs on the board |
| `Client.DeleteKeepsOtherTasks` | src/contexts/kanban-context.tsx:346-349 | deletion does not renumber: every other task stays in its column as often as before |
| `Client.DropUndoesAdd` | src/contexts/kanban-context.tsx:264-272 | removing a just-appended task from a column restores the column |
| `Client.DeleteUndoesCreate` | src/contexts/kanban-context.tsx:343-352 | deleting a freshly created task restores the board |
| `Client.DropTwice` | src/contexts/kanban-context.tsx:348 | filtering an id out twice equals filtering it out once |
| `Client.DeleteIdempotent` | src/contexts/kanban-context.tsx:343-352 | deleting twice equals deleting once |
| `Client.Spread` | src/contexts/kanban-context.tsx:389 | for each of the seven task fields: the reply's value when it carries the field, the task's own value when it omits it |
| `Client.UpdateTaskMerge` | src/contexts/kanban-context.tsx:377-394 | on success each task with the id is replaced in place by its field merge with the reply; other tasks and all columns are kept, and a changed `columnId` does not move the task |
| `Client.UpdateIdempotent` | src/contexts/kanban-context.tsx:383-394 | merging the same reply twice equals merging it once |
| `DragDrop.HandleDragEnd` | src/components/dashboard/kanban-board-view.tsx:66-100 | no move without a drop target or for a dragged id that is no task; task ids are tried first (that task's `columnId` and stored `position`), then columns (append at the task count); an unknown id moves to position 0 of that id |
| `DragDrop.DropOnColumnAppends` | src/components/dashboard/kanban-board-view.tsx:90-99 | composed with the move, a drop on a column makes the card that column's last card |
| `DragDrop.KanbanColumns` | src/components/dashboard/kanban-board-view.tsx:125-128 | one entry per column, in order, with id and name copied |
| `DragDrop.KanbanTasksLayout` | src/components/dashboard/kanban-board-view.tsx:130-137 | one card per task in column-then-task order; each card names its owning column and uses the title as its name |
| `Transform.OrEmpty` | src/lib/transform/kanban.ts:21 | a null description becomes `""`; any other is kept |
| `Transform.TransformBoardToKanban` | src/lib/transform/kanban.ts:9-27 | one column per input column, in order, with id and name copied and colour `#3f3f3f` |
| `Transform.KanbanTaskAt` | src/lib/transform/kanban.ts:16-24 | task `j` of column `i` appears at its column-then-task index, with the owning column id, the title as name, the defaulted description and no owner |
| `Transform.KanbanTasksMatchView` | src/lib/transform/kanban.ts:16-24 | the server task list is the client's card list, entry by entry, with the description defaulted and no owner |
| `Transform.TransformBoard` | src/lib/transform/board.ts:9-19 | one entry per column with id and name as title; its cards match the column's tasks one-to-one, in order, with id, title and defaulted description |
| `Transform.ShapingsAgree` | src/lib/transform/board.ts:10-18 | the nested and the flat shaping agree card by card |
| `Store.WorkspaceGuard` | src/lib/workspace.ts:5-29 | no session is Unauthorized; with an id, it passes iff that workspace exists and the user owns it or is a member; it passes only if some accessible workspace exists |
| `Store.MissingWorkspaceIdIsLax` | src/lib/workspace.ts:12-24 | without an id the access check passes for anyone who passes with some id |
| `Store.WorkspaceOf` | src/app/api/tasks/batch-update/route.ts:26-49 | a column's workspace is found iff the column, its board and the board's workspace all exist |
| `Store.AppendKeepsDense` | src/app/api/tasks/route.ts:9-13 | a fresh row at position = count keeps a dense parent dense with one more row |
| `BatchUpdate.StepRow` | src/app/api/tasks/batch-update/route.ts:49-64 | a broken chain throws; without access the row is kept; with access the row takes the entry's column and position, and an unknown column throws |
| `BatchUpdate.Step` | src/app/api/tasks/batch-update/route.ts:26-64 | a missing task is skipped; otherwise only that task's row changes |
| `BatchUpdate.ApplyAll` | src/app/api/tasks/batch-update/route.ts:21-66 | the loop keeps the set of tasks and their titles and descriptions, and leaves tasks no entry names alone |
| `BatchUpdate.BatchUpdateRoute` | src/app/api/tasks/batch-update/route.ts:6-73 | 401 without a session, 400 for a missing or empty array, 500 on any error with nothing written, 200 with `updated` equal to the entry count otherwise |
| `BatchUpdate.UnknownTasksStillCounted` | src/app/api/tasks/batch-update/route.ts:47-68 | a batch of unknown tasks writes nothing yet reports every entry as updated |
| `BatchUpdate.UnknownTasksSkipped` | src/app/api/tasks/batch-update/route.ts:47 | entries for missing tasks leave the store as it was |
| `BatchUpdate.RunRow` | src/app/api/tasks/batch-update/route.ts:22-64 | one task's entries, run on its row alone, keep its data and keep it in an existing column |
| `BatchUpdate.ApplyAllPerTask` | src/app/api/tasks/batch-update/route.ts:22-64 | the batch succeeds iff every task's own entries succeed, and each task then ends as its own run leaves it |
| `BatchUpdate.InaccessibleRowFrozen` | src/app/api/tasks/batch-update/route.ts:49-54 | a row in a workspace the user cannot access is never changed |
| `BatchUpdate.RunRowIdempotent` | src/app/api/tasks/batch-update/route.ts:57-64 | re-running one task's entries from where they left it changes nothing |
| `BatchUpdate.BatchIdempotent` | src/app/api/tasks/batch-update/route.ts:21-68 | sending the same batch twice leaves the store as after the first send |
| `BatchUpdate.LastEntryWinsRow` | src/app/api/tasks/batch-update/route.ts:57-64 | with access throughout, a task ends with the column and position of its last entry |
| `BatchUpdate.LastEntryWins` | src/app/api/tasks/batch-update/route.ts:22-64 | with access throughout, the last entry naming a task decides its column and position |
| `MoveRoute.ShiftFrom` | src/app/api/tasks/move/route.ts:16-19 | rows of the target column at or past the index move up by one; all other rows are untouched |
| `MoveRoute.MoveRouteHandler` | src/app/api/tasks/move/route.ts:5-32 | 400 for a falsy id or a missing index (0 and `null` pass); 500 with nothing written if the guard fails or the index is `null`; 200 iff the index is a number and the task and column exist, with the task placed and the shift applied; otherwise 500 with the shift kept |
| `MoveRoute.MoveIntoDenseColumn` | src/app/api/tasks/move/route.ts:16-25 | a cross-column move into a column holding exactly `0..n-1`, at an index in `0..n`, leaves it holding exactly `0..n` |
| `MoveRoute.MissingTaskLeavesShift` | src/app/api/tasks/move/route.ts:16-31 | moving a missing task fails with 500, but the shift has already been written |
| `Reorder.ReorderRows` | src/app/api/tasks/reorder/route.ts:15-22 | the transaction fails iff some listed id does not exist; otherwise every row is kept |
| `Reorder.ReorderRowsSpec` | src/app/api/tasks/reorder/route.ts:15-20 | the row listed last at index `i` gets position `i`; unlisted rows are untouched and no row changes parent |
| `Reorder.ReorderRowsFrame` | src/app/api/tasks/reorder/route.ts:15-20 | the updates write only `position`: parents and data are kept and unlisted rows are untouched |
| `Reorder.ReorderRowsLastWins` | src/app/api/tasks/reorder/route.ts:15-20 | a row listed at `i` and not listed again later ends at position `i` |
| `Reorder.ReorderPermutationDense` | src/app/api/tasks/reorder/route.ts:15-20 | an order listing every row of a parent once leaves that parent holding exactly `0..n-1` |
| `Reorder.TaskReorderHandler` | src/app/api/tasks/reorder/route.ts:5-29 | 400 for a falsy id or a non-array order; 500 with nothing written on a failed guard or a missing task; otherwise 200 with the reorder applied |
| `Reorder.TaskReorderDense` | src/app/api/tasks/reorder/route.ts:15-22 | a task order that is a permutation of a column's tasks succeeds and leaves the column dense |
| `Reorder.ColumnReorderHandler` | src/app/api/columns/reorder/route.ts:5-29 | the same for columns: 400, 500 with nothing written, or 200 with the reorder applied; tasks are untouched |
| `Reorder.ColumnReorderDense` | src/app/api/columns/reorder/route.ts:15-22 | a column order that is a permutation of a board's columns succeeds and leaves the board dense |
| `Create.CreateTaskHandler` | src/app/api/tasks/route.ts:5-16 | the guard runs before any read or write; on success the task is stored as given at position = the column's task count and returned |
| `Create.CreateTaskKeepsDense` | src/app/api/tasks/route.ts:9-13 | creation keeps a dense column dense with one more task and changes no other column's members |
| `Create.CreateColumnHandler` | src/app/api/columns/route.ts:5-16 | the guard runs first; on success the column is stored at position = the board's column count and returned |
| `Create.CreateColumnIgnoresPosition` | src/app/api/columns/route.ts:6-12 | a client-sent position has no effect |
| `Create.CreateColumnKeepsDense` | src/app/api/columns/route.ts:9-13 | creation keeps a dense board dense with one more column |
| `Scenarios.ClientMoveLeavesSourceGap` | src/contexts/kanban-context.tsx:195-221 | a concrete cross-column move: the remaining source task keeps position 1 |
| `Scenarios.ServerSameColumnMoveLeavesHole` | src/app/api/tasks/move/route.ts:16-25 | a concrete same-column server move turns a dense column into one with a hole at 0 |

## Left out

- Browser and network I/O are not modelled. This covers localStorage loading and saving (`src/contexts/kanban-context.tsx:88-123`), `fetch`, `navigator.sendBeacon`, the 30-second timer, toasts and `Date.now`. A request's result becomes a `Reply` or `Outcome` parameter, and the clock becomes a `now` parameter.
- The `isLoading` flag of the CRUD operations is not modelled; no other state depends on it.
- React closures and cross-tab races are not modelled. A flush is split into `BeginFlush` and `FinishFlush`, and any queue change may happen in between. Stale closure values are not modelled.
- Timestamps are not modelled as dates. `createdAt` and `updatedAt` are opaque integers, and the batch route's `updatedAt` write is not modelled.
- Prisma's 32-bit `Int` columns are not modelled; positions are unbounded integers.
- JSON values of the wrong type are not modelled. Entries and payload fields are strings and integers; the one exception is a `null` move index, which is modelled. An `undefined` field inside a batch entry, which Prisma would treat as "no change", is not modelled.
- Database-generated ids are a parameter of the create routes.
- `Sync.FailedAttempt`: the real retry path also runs when the request throws before a response. `FinishFlush` treats both failures alike, as the code does.
- `BatchUpdate.BatchIdempotent`: requires every column to reach a workspace through its board. The schema's required relations guarantee this; the route itself does not check it.
- `BatchUpdate.LastEntryWins`: stated only when the user can access the task's workspace and every target column's workspace. Without access an entry is skipped, as `StepRow` states.
- `MoveRoute.MoveIntoDenseColumn`: stated for cross-column moves only. A same-column move does not keep the column dense (`Scenarios.ServerSameColumnMoveLeavesHole`).
- The task update and delete routes, the board and workspace routes, the queries, the seed scripts and the UI components outside the drag handler and the two flattenings are not part of this model.
