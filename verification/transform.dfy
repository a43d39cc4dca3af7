/** The two server-side shapings of a loaded board for the UI:
    `transformBoardToKanban` (src/lib/transform/kanban.ts:9-27) and
    `transformBoard` (src/lib/transform/board.ts:9-19). Both replace a
    missing task description by the empty string. */
module Transform {
  import opened Basics
  import opened Kanban
  import opened DragDrop

  /** The colour every column gets. */
  const DefaultColor: string := "#3f3f3f"

  /** `description ?? ""` */
  function OrEmpty(d: Option<string>): (r: string)
    ensures d.Some? ==> r == d.value
    ensures d.None? ==> r == ""
  {
    match d
    case Some(s) => s
    case None => ""
  }

  datatype KanbanColumn = KanbanColumn(id: string, name: string, color: string)

  /** `owner` is always `null`. */
  datatype KanbanTask = KanbanTask(id: string, name: string, column: string, description: string, owner: Option<string>)

  datatype KanbanData = KanbanData(columns: seq<KanbanColumn>, tasks: seq<KanbanTask>)

  function KanbanTasksOf(c: Column): seq<KanbanTask>
  {
    seq(|c.tasks|, j requires 0 <= j < |c.tasks| =>
      KanbanTask(c.tasks[j].id, c.tasks[j].title, c.id, OrEmpty(c.tasks[j].description), None))
  }

  /** `transformBoardToKanban(board)` */
  function TransformBoardToKanban(b: Board): (r: KanbanData)
    ensures |r.columns| == |b.columns|
    ensures forall i :: 0 <= i < |b.columns| ==> r.columns[i] == KanbanColumn(b.columns[i].id, b.columns[i].name, DefaultColor)
  {
    KanbanData(
      seq(|b.columns|, i requires 0 <= i < |b.columns| => KanbanColumn(b.columns[i].id, b.columns[i].name, DefaultColor)),
      FlatMap(b.columns, KanbanTasksOf))
  }

  /** A client-view card as the server shaping renders it. */
  function FromViewCard(c: ViewCard): KanbanTask
  {
    KanbanTask(c.id, c.name, c.column, OrEmpty(c.description), None)
  }

  /** The server's task list carries exactly the client view's cards, in the
      same order, with the description defaulted and no owner. */
  lemma KanbanTasksMatchView(b: Board)
    ensures |TransformBoardToKanban(b).tasks| == |KanbanTasks(b)|
    ensures forall k :: 0 <= k < |KanbanTasks(b)| ==> TransformBoardToKanban(b).tasks[k] == FromViewCard(KanbanTasks(b)[k])
  {
    FlatMapMapped(b.columns, CardsOf, KanbanTasksOf, FromViewCard);
  }

  /** Every task of the board appears once in the task list, at its
      column-then-task index, tagged with the id of the column that holds it. */
  lemma KanbanTaskAt(b: Board, i: nat, j: nat)
    requires i < |b.columns| && j < |b.columns[i].tasks|
    ensures var k := Offset(b.columns, TasksOf, i) + j;
            var t := b.columns[i].tasks[j];
            && k < |TransformBoardToKanban(b).tasks|
            && TransformBoardToKanban(b).tasks[k] == KanbanTask(t.id, t.title, b.columns[i].id, OrEmpty(t.description), None)
  {
    SameShapeOffsets(b.columns, KanbanTasksOf, TasksOf);
    FlatMapIndex(b.columns, KanbanTasksOf, i, j);
  }

  datatype Card = Card(id: string, title: string, description: string)

  datatype BoardColumn = BoardColumn(id: string, title: string, cards: seq<Card>)

  function CardOf(t: Task): Card
  {
    Card(t.id, t.title, OrEmpty(t.description))
  }

  /** `transformBoard(board)`: the columns in order, each with its cards in
      order. */
  function TransformBoard(b: Board): (r: seq<BoardColumn>)
    ensures |r| == |b.columns|
    ensures forall i :: 0 <= i < |b.columns| ==> r[i].id == b.columns[i].id && r[i].title == b.columns[i].name
    ensures forall i :: 0 <= i < |b.columns| ==> |r[i].cards| == |b.columns[i].tasks|
    ensures forall i, j :: 0 <= i < |b.columns| && 0 <= j < |b.columns[i].tasks| ==>
              var t := b.columns[i].tasks[j];
              r[i].cards[j].id == t.id && r[i].cards[j].title == t.title
              && (t.description.None? ==> r[i].cards[j].description == "")
              && (t.description.Some? ==> r[i].cards[j].description == t.description.value)
  {
    seq(|b.columns|, i requires 0 <= i < |b.columns| =>
      BoardColumn(b.columns[i].id, b.columns[i].name,
        seq(|b.columns[i].tasks|, j requires 0 <= j < |b.columns[i].tasks| => CardOf(b.columns[i].tasks[j]))))
  }

  /** The nested and the flat shaping agree: card `j` of column `i` is the
      flat task at that column's offset plus `j`, with the same id, title and
      description, and that task names column `i` as its column. */
  lemma ShapingsAgree(b: Board, i: nat, j: nat)
    requires i < |b.columns| && j < |b.columns[i].tasks|
    ensures var card := TransformBoard(b)[i].cards[j];
            var k := Offset(b.columns, TasksOf, i) + j;
            && k < |TransformBoardToKanban(b).tasks|
            && var flat := TransformBoardToKanban(b).tasks[k];
            && flat.id == card.id && flat.name == card.title && flat.description == card.description
            && flat.column == TransformBoard(b)[i].id
  {
    KanbanTaskAt(b, i, j);
  }
}
