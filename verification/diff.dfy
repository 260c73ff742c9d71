/**
 * The edit-reconciliation diff: from a table snapshot and the grid widget's
 * edit buffer, the table of edited rows (an "old"/"new" pair per edit), the
 * table of added rows and the table of deleted rows.
 *
 * Three versions of the algorithm exist (core/update_calculator.py,
 * update_calculator.py, update_handler.py). They differ only in whether an
 * edit that changes nothing is suppressed, so the flag `suppressNoOps`
 * selects the version: true for the two calculators, false for the handler.
 */
module Diff {
  import opened Wrappers
  import opened Frames

  /** Every edited position names a row of the snapshot (otherwise iloc raises IndexError). */
  predicate EditsInRange(edits: seq<Edit>, n: nat) {
    forall i :: 0 <= i < |edits| ==> edits[i].position < n
  }

  /** The keys of the edit buffer, in its order. */
  function Positions(edits: seq<Edit>): (r: seq<nat>)
    ensures |r| == |edits|
    ensures forall i :: 0 <= i < |edits| ==> r[i] == edits[i].position
  {
    seq(|edits|, i requires 0 <= i < |edits| => edits[i].position)
  }

  /** The snapshot's rows as records: one field per column. */
  function Records(snapshot: Frame): (r: seq<Row>)
    ensures |r| == |snapshot.rows|
  {
    ProjectAll(snapshot.rows, snapshot.columns)
  }

  /** The original row overlaid with the edited fields: where both have a field, the edited value wins. */
  function Merge(original: Row, changes: Row): Row {
    original + changes
  }

  /** An edit is effective when the merged row differs from the original. */
  predicate IsChange(original: Row, changes: Row) {
    Merge(original, changes) != original
  }

  /** The two rows one edit contributes: the original tagged "old", the merged row tagged "new". */
  function Step(original: Row, changes: Row, suppressNoOps: bool): seq<Row> {
    if suppressNoOps && !IsChange(original, changes) then []
    else [Tag(original, OldState), Tag(Merge(original, changes), NewState)]
  }

  /** The diff list the loop builds, edit by edit, over the snapshot's records. */
  function Pairs(records: seq<Row>, edits: seq<Edit>, suppressNoOps: bool): seq<Row>
    requires EditsInRange(edits, |records|)
  {
    if |edits| == 0 then []
    else
      var last := edits[|edits| - 1];
      Pairs(records, edits[..|edits| - 1], suppressNoOps) + Step(records[last.position], last.changes, suppressNoOps)
  }

  /** The edits that effectively change their row, in buffer order. */
  function Changed(records: seq<Row>, edits: seq<Edit>): (r: seq<Edit>)
    requires EditsInRange(edits, |records|)
    ensures EditsInRange(r, |records|)
    ensures |r| <= |edits|
    ensures forall i :: 0 <= i < |r| ==> r[i] in edits && IsChange(records[r[i].position], r[i].changes)
    ensures forall i :: 0 <= i < |edits| && IsChange(records[edits[i].position], edits[i].changes) ==> edits[i] in r
  {
    if |edits| == 0 then []
    else
      var last := edits[|edits| - 1];
      var init := Changed(records, edits[..|edits| - 1]);
      assert forall i :: 0 <= i < |edits| - 1 ==> edits[..|edits| - 1][i] == edits[i];
      init + (if IsChange(records[last.position], last.changes) then [last] else [])
  }

  /** The edited-rows table, or IndexError when an edited position is outside the snapshot. */
  function EditedFrame(snapshot: Frame, edits: seq<Edit>, suppressNoOps: bool): (r: Result<Frame, PyError>)
    ensures r.Success? <==> EditsInRange(edits, |snapshot.rows|)
    ensures r.Failure? ==> r.error == IndexError
    ensures r.Success? ==> r.value.columns == snapshot.columns + [StateColumn]
  {
    if !EditsInRange(edits, |snapshot.rows|) then Failure(IndexError)
    else
      var columns := snapshot.columns + [StateColumn];
      Success(Frame(columns, ProjectAll(Pairs(Records(snapshot), edits, suppressNoOps), columns)))
  }

  /**
   * _get_edited_rows: looks up the edited rows, then walks the buffer and
   * appends an old/new pair per edit (per effective edit when suppressNoOps).
   */
  method EditedRows(snapshot: Frame, edits: seq<Edit>, suppressNoOps: bool) returns (r: Result<Frame, PyError>)
    ensures r == EditedFrame(snapshot, edits, suppressNoOps)
  {
    var indices := Positions(edits);
    if !PositionsInRange(indices, |snapshot.rows|) {
      return Failure(IndexError);
    }
    var impacted := ProjectAll(Take(snapshot.rows, indices), snapshot.columns);
    ghost var records := Records(snapshot);
    var diff: seq<Row> := [];
    var i := 0;
    while i < |edits|
      invariant 0 <= i <= |edits|
      invariant diff == Pairs(records, edits[..i], suppressNoOps)
    {
      var oldRow := impacted[i];
      var newRow := Merge(oldRow, edits[i].changes);
      assert oldRow == records[edits[i].position];
      PairsSnoc(records, edits, i, suppressNoOps);
      if !suppressNoOps || oldRow != newRow {
        diff := diff + [Tag(oldRow, OldState), Tag(newRow, NewState)];
      }
      i := i + 1;
    }
    assert edits[..i] == edits;
    var columns := snapshot.columns + [StateColumn];
    r := Success(Frame(columns, ProjectAll(diff, columns)));
  }

  /** One more iteration of the loop adds the next edit's step. */
  lemma PairsSnoc(records: seq<Row>, edits: seq<Edit>, i: nat, suppressNoOps: bool)
    requires EditsInRange(edits, |records|) && i < |edits|
    ensures EditsInRange(edits[..i], |records|) && EditsInRange(edits[..i + 1], |records|)
    ensures Pairs(records, edits[..i + 1], suppressNoOps)
      == Pairs(records, edits[..i], suppressNoOps) + Step(records[edits[i].position], edits[i].changes, suppressNoOps)
  {
    assert edits[..i + 1][..i] == edits[..i];
  }

  /** An edit is a no-op exactly when every changed field already holds its new value. */
  lemma NoOpIffChangesAgree(original: Row, changes: Row)
    ensures !IsChange(original, changes) <==>
      forall c :: c in changes ==> c in original && original[c] == changes[c]
  {
    if forall c :: c in changes ==> c in original && original[c] == changes[c] {
      assert Merge(original, changes) == original;
    } else {
      var c :| c in changes && !(c in original && original[c] == changes[c]);
      assert Merge(original, changes)[c] == changes[c];
    }
  }

  /** The merged row holds the edited value of every changed field and the original value of every other field. */
  lemma MergeOverwrites(original: Row, changes: Row)
    ensures Merge(original, changes).Keys == original.Keys + changes.Keys
    ensures forall c :: c in changes ==> Merge(original, changes)[c] == changes[c]
    ensures forall c :: c in original && c !in changes ==> Merge(original, changes)[c] == original[c]
  {
  }

  /** Concatenating edit buffers concatenates their pairs: pairs appear in buffer order. */
  lemma {:induction false} PairsAppend(records: seq<Row>, a: seq<Edit>, b: seq<Edit>, suppressNoOps: bool)
    requires EditsInRange(a, |records|) && EditsInRange(b, |records|)
    ensures EditsInRange(a + b, |records|)
    ensures Pairs(records, a + b, suppressNoOps) == Pairs(records, a, suppressNoOps) + Pairs(records, b, suppressNoOps)
    decreases |b|
  {
    assert EditsInRange(a + b, |records|) by {
      forall i | 0 <= i < |a + b| ensures (a + b)[i].position < |records| {
        if i >= |a| { assert (a + b)[i] == b[i - |a|]; }
      }
    }
    if |b| == 0 {
      assert a + b == a;
    } else {
      var b' := b[..|b| - 1];
      assert (a + b)[..|a + b| - 1] == a + b';
      PairsAppend(records, a, b', suppressNoOps);
    }
  }

  /** Without suppression every edit yields its pair: old row at 2k, merged row at 2k+1. */
  lemma {:induction false} UnsuppressedLayout(records: seq<Row>, edits: seq<Edit>)
    requires EditsInRange(edits, |records|)
    ensures |Pairs(records, edits, false)| == 2 * |edits|
    ensures forall k :: 0 <= k < |edits| ==>
      && Pairs(records, edits, false)[2 * k] == Tag(records[edits[k].position], OldState)
      && Pairs(records, edits, false)[2 * k + 1] == Tag(Merge(records[edits[k].position], edits[k].changes), NewState)
  {
    if |edits| > 0 {
      var init := edits[..|edits| - 1];
      UnsuppressedLayout(records, init);
      forall k | 0 <= k < |init| ensures init[k] == edits[k] { }
    }
  }

  /** Suppression is exactly the unsuppressed algorithm run on the effective edits only. */
  lemma {:induction false} SuppressionFiltersNoOps(records: seq<Row>, edits: seq<Edit>)
    requires EditsInRange(edits, |records|)
    ensures Pairs(records, edits, true) == Pairs(records, Changed(records, edits), false)
  {
    if |edits| > 0 {
      var init := edits[..|edits| - 1];
      var last := edits[|edits| - 1];
      SuppressionFiltersNoOps(records, init);
      var tail := if IsChange(records[last.position], last.changes) then [last] else [];
      PairsAppend(records, Changed(records, init), tail, false);
      if tail != [] {
        assert [last][..0] == [];
      }
    }
  }

  /** With suppression, the pairs are those of the effective edits: 2 rows per effective edit, old then new. */
  lemma SuppressedLayout(records: seq<Row>, edits: seq<Edit>)
    requires EditsInRange(edits, |records|)
    ensures var ch := Changed(records, edits);
      && |Pairs(records, edits, true)| == 2 * |ch|
      && forall k :: 0 <= k < |ch| ==>
        && Pairs(records, edits, true)[2 * k] == Tag(records[ch[k].position], OldState)
        && Pairs(records, edits, true)[2 * k + 1] == Tag(Merge(records[ch[k].position], ch[k].changes), NewState)
  {
    SuppressionFiltersNoOps(records, edits);
    UnsuppressedLayout(records, Changed(records, edits));
  }

  /** The effective-edit filter keeps the buffer's order. */
  lemma {:induction false} ChangedAppend(records: seq<Row>, a: seq<Edit>, b: seq<Edit>)
    requires EditsInRange(a, |records|) && EditsInRange(b, |records|)
    ensures EditsInRange(a + b, |records|)
    ensures Changed(records, a + b) == Changed(records, a) + Changed(records, b)
    decreases |b|
  {
    assert EditsInRange(a + b, |records|) by {
      forall i | 0 <= i < |a + b| ensures (a + b)[i].position < |records| {
        if i >= |a| { assert (a + b)[i] == b[i - |a|]; }
      }
    }
    if |b| == 0 {
      assert a + b == a;
    } else {
      var b' := b[..|b| - 1];
      assert (a + b)[..|a + b| - 1] == a + b';
      ChangedAppend(records, a, b');
    }
  }

  /** No pair at all is shown exactly when no edit changes its row. */
  lemma NoPairsIffNoChange(records: seq<Row>, edits: seq<Edit>)
    requires EditsInRange(edits, |records|)
    ensures Pairs(records, edits, true) == [] <==>
      forall i :: 0 <= i < |edits| ==> !IsChange(records[edits[i].position], edits[i].changes)
  {
    SuppressedLayout(records, edits);
    var ch := Changed(records, edits);
    if |ch| > 0 {
      assert ch[0] in edits;
    }
  }

  /**
   * As displayed, the new row of a pair carries the edited value of every
   * changed column and the old row's value of every other column (the id
   * among them); the state column reads "old" and "new".
   */
  lemma DisplayedPair(snapshot: Frame, original: Row, changes: Row)
    requires StateColumn !in snapshot.columns
    ensures var columns := snapshot.columns + [StateColumn];
      var old_ := Project(Tag(original, OldState), columns);
      var new_ := Project(Tag(Merge(original, changes), NewState), columns);
      && old_[StateColumn] == OldState && new_[StateColumn] == NewState
      && (forall c :: c in snapshot.columns && c in changes ==> new_[c] == changes[c])
      && (forall c :: c in snapshot.columns && c !in changes ==> new_[c] == old_[c])
  {
  }

  /** _get_new_rows: the added rows, each projected onto the snapshot's columns. */
  function NewRows(snapshot: Frame, added: seq<Row>): (r: Frame)
    ensures r.columns == snapshot.columns && |r.rows| == |added|
    ensures forall i :: 0 <= i < |added| ==>
      forall c :: c in snapshot.columns ==> c in r.rows[i] && (c in added[i] ==> r.rows[i][c] == added[i][c])
  {
    Frame(snapshot.columns, ProjectAll(added, snapshot.columns))
  }

  /** An added row that has exactly the snapshot's columns comes out unchanged. */
  lemma NewRowsOfCompleteRows(snapshot: Frame, added: seq<Row>)
    requires forall i :: 0 <= i < |added| ==> added[i].Keys == set c | c in snapshot.columns
    ensures NewRows(snapshot, added).rows == added
  {
    var r := NewRows(snapshot, added);
    forall i | 0 <= i < |added| ensures r.rows[i] == added[i] {
      assert r.rows[i].Keys == added[i].Keys;
    }
  }

  /** _get_deleted_rows: the snapshot rows at the deleted positions, verbatim, in order, duplicates kept. */
  function DeletedRows(snapshot: Frame, positions: seq<nat>): (r: Result<Frame, PyError>)
    ensures r.Success? <==> PositionsInRange(positions, |snapshot.rows|)
    ensures r.Failure? ==> r.error == IndexError
    ensures r.Success? ==> r.value.columns == snapshot.columns && |r.value.rows| == |positions|
    ensures r.Success? ==> forall i :: 0 <= i < |positions| ==> r.value.rows[i] == snapshot.rows[positions[i]]
  {
    if PositionsInRange(positions, |snapshot.rows|)
    then Success(Frame(snapshot.columns, Take(snapshot.rows, positions)))
    else Failure(IndexError)
  }

  /** Every deleted row is a snapshot row. */
  lemma DeletedRowsFromSnapshot(snapshot: Frame, positions: seq<nat>)
    requires PositionsInRange(positions, |snapshot.rows|)
    ensures forall row :: row in DeletedRows(snapshot, positions).value.rows ==> row in snapshot.rows
  {
  }
}
