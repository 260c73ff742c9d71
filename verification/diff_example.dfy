/**
 * The worked example of the calculator's unit tests
 * (tests/test_core/test_update_calculator.py), stated as lemmas about the
 * diff: a two-row table with columns A and B and edits to both rows.
 */
module DiffExample {
  import opened Wrappers
  import opened Frames
  import opened Diff

  /** A row that has exactly the given columns is its own projection. */
  lemma ProjectComplete(row: Row, columns: seq<string>)
    requires row.Keys == set c | c in columns
    ensures Project(row, columns) == row
  {
  }

  /** Both edits change their row, so both pairs are kept. */
  lemma ExamplePairs(r0: Row, r1: Row, e0: Edit, e1: Edit)
    requires r0 == map["A" := Num(1), "B" := Num(2)] && r1 == map["A" := Num(3), "B" := Num(4)]
    requires e0 == Edit(0, map["A" := Num(10), "B" := Num(5)]) && e1 == Edit(1, map["B" := Num(20)])
    ensures Pairs([r0, r1], [e0, e1], true) == [
        Tag(r0, OldState), Tag(map["A" := Num(10), "B" := Num(5)], NewState),
        Tag(r1, OldState), Tag(map["A" := Num(3), "B" := Num(20)], NewState)]
  {
    var n0 := map["A" := Num(10), "B" := Num(5)];
    var n1 := map["A" := Num(3), "B" := Num(20)];
    assert Merge(r0, e0.changes) == n0;
    assert Merge(r1, e1.changes) == n1;
    assert IsChange(r0, e0.changes) by { assert n0["A"] != r0["A"]; }
    assert IsChange(r1, e1.changes) by { assert n1["B"] != r1["B"]; }
    var records := [r0, r1];
    assert [e0, e1][..1] == [e0] && [e0][..0] == [];
    assert Step(r0, e0.changes, true) == [Tag(r0, OldState), Tag(n0, NewState)];
    assert Step(r1, e1.changes, true) == [Tag(r1, OldState), Tag(n1, NewState)];
    assert Pairs(records, [e0], true) == Pairs(records, [], true) + Step(records[0], e0.changes, true);
    assert Pairs(records, [e0, e1], true) == Pairs(records, [e0], true) + Step(records[1], e1.changes, true);
  }

  lemma ExampleTags()
    ensures Tag(map["A" := Num(1), "B" := Num(2)], OldState) == map["A" := Num(1), "B" := Num(2), "state" := Text("old")]
    ensures Tag(map["A" := Num(10), "B" := Num(5)], NewState) == map["A" := Num(10), "B" := Num(5), "state" := Text("new")]
    ensures Tag(map["A" := Num(3), "B" := Num(4)], OldState) == map["A" := Num(3), "B" := Num(4), "state" := Text("old")]
    ensures Tag(map["A" := Num(3), "B" := Num(20)], NewState) == map["A" := Num(3), "B" := Num(20), "state" := Text("new")]
  {
  }

  /** The rows the example expects. */
  function ExpectedRows(): seq<Row> {
    [map["A" := Num(1), "B" := Num(2), "state" := Text("old")],
     map["A" := Num(10), "B" := Num(5), "state" := Text("new")],
     map["A" := Num(3), "B" := Num(4), "state" := Text("old")],
     map["A" := Num(3), "B" := Num(20), "state" := Text("new")]]
  }

  lemma ExampleProjection()
    ensures ProjectAll(ExpectedRows(), ["A", "B", "state"]) == ExpectedRows()
  {
    var rows := ExpectedRows();
    forall i | 0 <= i < |rows| ensures Project(rows[i], ["A", "B", "state"]) == rows[i] {
      ProjectComplete(rows[i], ["A", "B", "state"]);
    }
  }

  /** A frame whose rows have exactly its columns is its own record list. */
  lemma RecordsComplete(frame: Frame)
    requires forall i :: 0 <= i < |frame.rows| ==> frame.rows[i].Keys == set c | c in frame.columns
    ensures Records(frame) == frame.rows
  {
    forall i | 0 <= i < |frame.rows| ensures Project(frame.rows[i], frame.columns) == frame.rows[i] {
      ProjectComplete(frame.rows[i], frame.columns);
    }
  }

  /** The displayed table, once the pair list and its projection are known. */
  lemma EditedFrameOf(snapshot: Frame, edits: seq<Edit>, rows: seq<Row>)
    requires EditsInRange(edits, |snapshot.rows|)
    requires Pairs(Records(snapshot), edits, true) == rows
    requires ProjectAll(rows, snapshot.columns + [StateColumn]) == rows
    ensures EditedFrame(snapshot, edits, true) == Success(Frame(snapshot.columns + [StateColumn], rows))
  {
  }

  /** The example's table: columns A and B, rows {A: 1, B: 2} and {A: 3, B: 4}. */
  const ExampleSnapshot: Frame := Frame(["A", "B"], [map["A" := Num(1), "B" := Num(2)], map["A" := Num(3), "B" := Num(4)]])

  /** The example's buffer: A and B of row 0 set to 10 and 5, B of row 1 set to 20. */
  const ExampleEdits: seq<Edit> := [Edit(0, map["A" := Num(10), "B" := Num(5)]), Edit(1, map["B" := Num(20)])]

  /** The pair list of the example is the expected table before projection. */
  lemma ExamplePairList()
    ensures Pairs(ExampleSnapshot.rows, ExampleEdits, true) == ExpectedRows()
  {
    var r0, r1 := ExampleSnapshot.rows[0], ExampleSnapshot.rows[1];
    var e0, e1 := ExampleEdits[0], ExampleEdits[1];
    ExamplePairs(r0, r1, e0, e1);
    ExampleTags();
    assert ExampleSnapshot.rows == [r0, r1] && ExampleEdits == [e0, e1];
  }

  /** Both edits name a row of the example's table, and the state column follows A and B. */
  lemma ExampleShape()
    ensures EditsInRange(ExampleEdits, |ExampleSnapshot.rows|)
    ensures ExampleSnapshot.columns + [StateColumn] == ["A", "B", "state"]
  {
  }

  /** Editing A and B of row 0 and B of row 1 gives two old/new pairs, in row order. */
  lemma EditedRowsExample()
    ensures EditedFrame(ExampleSnapshot, ExampleEdits, true) == Success(Frame(["A", "B", "state"], ExpectedRows()))
  {
    var snapshot := ExampleSnapshot;
    assert snapshot.rows[0].Keys == {"A", "B"} && snapshot.rows[1].Keys == {"A", "B"};
    RecordsComplete(snapshot);
    ExamplePairList();
    ExampleShape();
    ExampleProjection();
    EditedFrameOf(snapshot, ExampleEdits, ExpectedRows());
  }

  /**
   * An edit that writes back a field's current value: the calculators show
   * nothing, the handler still shows the old/new pair.
   */
  lemma NoOpEditExample()
    ensures var snapshot := Frame(["A", "B"], [map["A" := Num(1), "B" := Num(2)]]);
      var edits := [Edit(0, map["A" := Num(1)])];
      && EditedFrame(snapshot, edits, true) == Success(Frame(["A", "B", "state"], []))
      && |EditedFrame(snapshot, edits, false).value.rows| == 2
  {
    var r0 := map["A" := Num(1), "B" := Num(2)];
    var snapshot := Frame(["A", "B"], [r0]);
    var e0 := Edit(0, map["A" := Num(1)]);
    ProjectComplete(r0, ["A", "B"]);
    assert Records(snapshot) == [r0];
    assert Merge(r0, e0.changes) == r0;
    assert [e0][..0] == [];
    assert Pairs([r0], [e0], true) == [];
    assert |Pairs([r0], [e0], false)| == 2;
    assert ["A", "B"] + [StateColumn] == ["A", "B", "state"];
    assert EditsInRange([e0], 1);
  }
}
