/** Concrete runs that pin down behaviour the general contracts allow but a
    reader might not expect. */
module Scenarios {
  import opened Basics
  import opened Kanban
  import opened TaskMove
  import opened Store
  import opened MoveRoute

  /** A cross-column move on the client renumbers only the target column:
      the task left behind in the source column keeps position 1 although it
      is now that column's only task. */
  lemma ClientMoveLeavesSourceGap()
    ensures
      var t1 := Task("t1", "A", None, 0, "a", 0, 0);
      var t2 := Task("t2", "B", None, 1, "a", 0, 0);
      var t3 := Task("t3", "C", None, 0, "b", 0, 0);
      var b := Board("b1", "Board", "w1", [Column("a", "To do", 0, "b1", [t1, t2]), Column("b", "Done", 1, "b1", [t3])]);
      var r := MoveTask(b, "t1", "b", 5);
      && r.columns[0].tasks == [t2]
      && r.columns[1].tasks == [t3, t1.(columnId := "b", position := 1)]
  {
    var t1 := Task("t1", "A", None, 0, "a", 0, 0);
    var t2 := Task("t2", "B", None, 1, "a", 0, 0);
    var t3 := Task("t3", "C", None, 0, "b", 0, 0);
    var cols := [Column("a", "To do", 0, "b1", [t1, t2]), Column("b", "Done", 1, "b1", [t3])];
    var b := Board("b1", "Board", "w1", cols);
    assert cols[0].tasks[0] == t1;
    assert AllTasks(cols)[0] == t1 by {
      FlatMapIndex(cols, TasksOf, 0, 0);
      assert cols[..0] == [];
    }
    assert LookupTask(cols, "t1") == Some(t1);
    assert FindColumn(cols, "b") == Some(1);
    assert RemoveTask([t1, t2], "t1") == [t2] by {
      assert !NotId("t1")(t1) && NotId("t1")(t2);
      assert [t1, t2][1..] == [t2];
      assert [t2][1..] == [];
      assert Filter([t2], NotId("t1")) == [t2];
    }
    assert RemoveTask([t3], "t1") == [t3] by {
      assert [t3][1..] == [];
    }
    var r := MoveTask(b, "t1", "b", 5);
    assert |r.columns[1].tasks| == 2;
    assert r.columns[1].tasks[0] == t3;
    assert r.columns[1].tasks[1] == t1.(columnId := "b", position := 1);
  }

  /** The server move used within one column: moving the task at position
      0 to index 1 shifts the other task to 2 and leaves position 0 empty,
      so the column is no longer dense. */
  lemma ServerSameColumnMoveLeavesHole()
    ensures
      var d := TaskData("t", None);
      var db := Db(map["x" := Row("c", 0, d), "y" := Row("c", 1, d)],
                   Layout(map["c" := Row("b", 0, "Column")], map["b" := "w"], map["w" := Workspace("u", {})]));
      var p := MovePayload(Some("w"), Some("x"), Some("c"), Index(1));
      var r := MoveRouteHandler(db, Some("u"), p);
      && Dense(db.tasks, "c")
      && r.status == 200
      && r.db.tasks["x"].position == 1 && r.db.tasks["y"].position == 2
      && !Dense(r.db.tasks, "c")
  {
    var d := TaskData("t", None);
    var tasks := map["x" := Row("c", 0, d), "y" := Row("c", 1, d)];
    var db := Db(tasks, Layout(map["c" := Row("b", 0, "Column")], map["b" := "w"], map["w" := Workspace("u", {})]));
    var p := MovePayload(Some("w"), Some("x"), Some("c"), Index(1));
    var r := MoveRouteHandler(db, Some("u"), p);
    TwoRowsDense(tasks, "c", "x", "y");
    assert WorkspaceGuard(db.layout, Some("u"), Some("w")) == Pass;
    assert r.status == 200;
    assert Shifted(tasks["y"], "c", 1);
    assert r.db.tasks["y"] == tasks["y"].(position := 2);
    assert r.db.tasks.Keys == {"x", "y"};
    HoleAtZero(r.db.tasks, "c", "x");
  }

  /** Two rows at 0 and 1 under one parent, and nothing else there. */
  lemma TwoRowsDense<D>(rows: map<string, Row<D>>, parent: string, a: string, b: string)
    requires rows.Keys == {a, b} && a != b
    requires rows[a].parent == parent && rows[a].position == 0
    requires rows[b].parent == parent && rows[b].position == 1
    ensures Dense(rows, parent)
  {
    assert Members(rows, parent) == {a, b};
    assert Taken(rows, parent, 0) && Taken(rows, parent, 1);
  }

  /** A parent with a row but none at position 0 is not dense. */
  lemma HoleAtZero<D>(rows: map<string, Row<D>>, parent: string, k: string)
    requires k in rows && rows[k].parent == parent
    requires forall j :: j in rows ==> rows[j].position != 0
    ensures !Dense(rows, parent)
  {
    assert k in Members(rows, parent);
    assert Count(rows, parent) > 0;
    assert !Taken(rows, parent, 0);
  }
}
