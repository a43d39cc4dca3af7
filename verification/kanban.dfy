/** The client-side board snapshot held by the Kanban context
    (src/contexts/kanban-context.tsx:13-43) and the lookups every reducer
    shares: the first task with an id in column-then-task order, the first
    column with an id, and "filter the id out". */
module Kanban {
  import opened Basics

  /** A card. `description` is nullable; timestamps are kept as opaque
      numbers because no reducer reads them. */
  datatype Task = Task(
    id: string,
    title: string,
    description: Option<string>,
    position: int,
    columnId: string,
    createdAt: int,
    updatedAt: int)

  datatype Column = Column(id: string, name: string, position: int, boardId: string, tasks: seq<Task>)

  datatype Board = Board(id: string, name: string, workspaceId: string, columns: seq<Column>)

  function TasksOf(c: Column): seq<Task> { c.tasks }

  /** All tasks of the board, column by column, each column's in order. */
  function AllTasks(cols: seq<Column>): seq<Task>
  {
    FlatMap(cols, TasksOf)
  }

  /** The first task carrying `id`, if any. */
  function FindTask(ts: seq<Task>, id: string): (r: Option<Task>)
    ensures r.None? <==> forall i :: 0 <= i < |ts| ==> ts[i].id != id
    ensures r.Some? ==> exists k :: 0 <= k < |ts| && ts[k] == r.value && r.value.id == id
                                   && forall j :: 0 <= j < k ==> ts[j].id != id
  {
    if |ts| == 0 then None
    else if ts[0].id == id then Some(ts[0])
    else
      var r := FindTask(ts[1..], id);
      assert r.Some? ==> exists k :: 0 <= k < |ts[1..]| && ts[1..][k] == r.value && r.value.id == id
                                   && forall j :: 0 <= j < k ==> ts[1..][j].id != id;
      assert r.Some? ==> exists k :: 0 <= k < |ts| && ts[k] == r.value && r.value.id == id
                                   && forall j :: 0 <= j < k ==> ts[j].id != id by {
        if r.Some? {
          var k :| 0 <= k < |ts[1..]| && ts[1..][k] == r.value && r.value.id == id
                   && forall j :: 0 <= j < k ==> ts[1..][j].id != id;
          assert ts[k + 1] == r.value;
          assert forall j :: 0 <= j < k + 1 ==> ts[j].id != id by {
            forall j | 0 <= j < k + 1 ensures ts[j].id != id {
              if j > 0 { assert ts[j] == ts[1..][j - 1]; }
            }
          }
        }
      }
      r
  }

  /** The first task carrying `id` in the board's column-by-column task
      list. */
  function LookupTask(cols: seq<Column>, id: string): Option<Task>
  {
    FindTask(AllTasks(cols), id)
  }

  /** The index of the first column carrying `id`, if any. */
  function FindColumn(cols: seq<Column>, id: string): (r: Option<nat>)
    ensures r.None? <==> forall i :: 0 <= i < |cols| ==> cols[i].id != id
    ensures r.Some? ==> r.value < |cols| && cols[r.value].id == id
                        && forall j :: 0 <= j < r.value ==> cols[j].id != id
  {
    if |cols| == 0 then None
    else if cols[0].id == id then Some(0)
    else
      match FindColumn(cols[1..], id)
      case None => None
      case Some(i) => Some(i + 1)
  }

  /** The filter predicate "the task does not carry `id`". */
  function NotId(id: string): Task -> bool
  {
    (t: Task) => t.id != id
  }

  /** The tasks not carrying `id`, in order. */
  function RemoveTask(ts: seq<Task>, id: string): seq<Task>
  {
    Filter(ts, NotId(id))
  }

  /** How many tasks in `ts` carry `id`. */
  function CountId(ts: seq<Task>, id: string): nat
  {
    if |ts| == 0 then 0 else (if ts[0].id == id then 1 else 0) + CountId(ts[1..], id)
  }

  /** How many tasks on the whole board carry `id`. */
  function Occurrences(cols: seq<Column>, id: string): nat
  {
    if |cols| == 0 then 0 else CountId(cols[0].tasks, id) + Occurrences(cols[1..], id)
  }

  /** `RemoveTask` leaves no task with `id` behind and keeps every other task
      exactly as often as before. */
  lemma {:induction false} RemoveTaskSpec(ts: seq<Task>, id: string)
    ensures CountId(RemoveTask(ts, id), id) == 0
    ensures forall t: Task :: t.id != id ==> multiset(RemoveTask(ts, id))[t] == multiset(ts)[t]
    ensures forall t: Task :: t in RemoveTask(ts, id) <==> t in ts && t.id != id
  {
    RemoveTaskCount(ts, id);
    FilterMultiset(ts, NotId(id));
  }

  /** `RemoveTask` leaves no task with `id` behind. */
  lemma RemoveTaskCount(ts: seq<Task>, id: string)
    ensures CountId(RemoveTask(ts, id), id) == 0
  {
    NoIdCount(RemoveTask(ts, id), id);
  }

  /** Removing an id that does not occur is the identity. */
  lemma RemoveAbsent(ts: seq<Task>, id: string)
    requires forall i :: 0 <= i < |ts| ==> ts[i].id != id
    ensures RemoveTask(ts, id) == ts
  {
    FilterKeepsAll(ts, NotId(id));
  }

  /** A list with no task carrying `id` counts zero occurrences. */
  lemma {:induction false} NoIdCount(ts: seq<Task>, id: string)
    requires forall t :: t in ts ==> t.id != id
    ensures CountId(ts, id) == 0
  {
    if |ts| > 0 {
      assert ts[0] in ts;
      NoIdCount(ts[1..], id);
    }
  }

  /** Occurrence counting is additive over concatenation. */
  lemma {:induction false} CountIdAppend(a: seq<Task>, b: seq<Task>, id: string)
    ensures CountId(a + b, id) == CountId(a, id) + CountId(b, id)
  {
    if |a| == 0 {
      assert a + b == b;
    } else {
      assert (a + b)[1..] == a[1..] + b;
      CountIdAppend(a[1..], b, id);
    }
  }

  /** The task-id occurrences of a board are the sum over its columns. */
  lemma {:induction false} OccurrencesSplit(cols: seq<Column>, i: nat, id: string)
    requires i < |cols|
    ensures Occurrences(cols, id) == Occurrences(cols[..i], id) + CountId(cols[i].tasks, id) + Occurrences(cols[i + 1..], id)
  {
    if i == 0 {
      assert cols[..0] == [];
      assert cols[1..] == cols[i + 1..];
    } else {
      OccurrencesSplit(cols[1..], i - 1, id);
      assert cols[1..][..i - 1] == cols[..i][1..];
      assert cols[1..][i - 1] == cols[i];
      assert cols[1..][i..] == cols[i + 1..];
    }
  }

  /** A board none of whose columns contains `id` has no occurrence of it. */
  lemma {:induction false} OccurrencesZero(cols: seq<Column>, id: string)
    requires forall i :: 0 <= i < |cols| ==> CountId(cols[i].tasks, id) == 0
    ensures Occurrences(cols, id) == 0
  {
    if |cols| > 0 {
      OccurrencesZero(cols[1..], id);
    }
  }
}
