/**
 * Persistence (core/persistence.py): which rows of the diff tables are sent
 * to the backend. Added and edited rows are posted, keeping only the rows
 * tagged "new" when the table has a state column and dropping that column;
 * deleted rows are sent as their ids. The HTTP exchange itself is abstracted
 * as the request that would be issued.
 */
module Persistence {
  import opened Wrappers
  import opened Frames
  import opened EditorMeta
  import opened Diff

  /** The request one operation issues; the backend's answer is not modelled. */
  datatype Request = Post(payload: seq<Row>) | Delete(ids: seq<Value>)

  predicate IsNewRow(row: Row) {
    StateColumn in row && row[StateColumn] == NewState
  }

  /** The rows whose state column reads "new", in their original order. */
  function KeepNew(rows: seq<Row>): (r: seq<Row>)
    ensures |r| <= |rows|
    ensures r == [] <==> forall i :: 0 <= i < |rows| ==> !IsNewRow(rows[i])
  {
    if |rows| == 0 then []
    else
      var init := KeepNew(rows[..|rows| - 1]);
      assert forall i :: 0 <= i < |rows| - 1 ==> rows[..|rows| - 1][i] == rows[i];
      init + (if IsNewRow(rows[|rows| - 1]) then [rows[|rows| - 1]] else [])
  }

  /** A row is kept exactly when it is one of the given rows and is tagged "new". */
  lemma {:induction false} KeepNewMembers(rows: seq<Row>)
    ensures forall row :: row in KeepNew(rows) <==> row in rows && IsNewRow(row)
    decreases |rows|
  {
    if |rows| > 0 {
      var init := rows[..|rows| - 1];
      KeepNewMembers(init);
      assert rows == init + [rows[|rows| - 1]];
    }
  }

  lemma {:induction false} KeepNewAppend(a: seq<Row>, b: seq<Row>)
    ensures KeepNew(a + b) == KeepNew(a) + KeepNew(b)
    decreases |b|
  {
    if |b| == 0 {
      assert a + b == a;
    } else {
      var init, last := b[..|b| - 1], b[|b| - 1];
      var tail := if IsNewRow(last) then [last] else [];
      assert (a + b)[..|a + b| - 1] == a + init && (a + b)[|a + b| - 1] == last;
      assert KeepNew(a + b) == KeepNew(a + init) + tail;
      assert KeepNew(b) == KeepNew(init) + tail;
      KeepNewAppend(a, init);
    }
  }

  /** The rows with the state column removed, as new rows rather than changing the given ones. */
  function DropState(rows: seq<Row>): (r: seq<Row>)
    ensures |r| == |rows|
    ensures forall i :: 0 <= i < |rows| ==> StateColumn !in r[i] && r[i].Keys == rows[i].Keys - {StateColumn}
    ensures forall i, c :: 0 <= i < |rows| && c in r[i] ==> r[i][c] == rows[i][c]
  {
    seq(|rows|, i requires 0 <= i < |rows| => rows[i] - {StateColumn})
  }

  /** The payload posted for an operation's table, before the empty check. */
  function Payload(frame: Frame): seq<Row> {
    if StateColumn in frame.columns then DropState(KeepNew(frame.rows)) else frame.rows
  }

  /**
   * _persist_new_or_edited: nothing for an absent or empty table, nothing
   * when no row is left after filtering, otherwise a post of the payload.
   */
  function PersistNewOrEdited(changed: map<Operation, Frame>, op: Operation): (r: Option<Request>)
    ensures r.Some? ==> r.value.Post? && |r.value.payload| > 0
    ensures op !in changed || |changed[op].rows| == 0 ==> r.None?
    ensures op in changed && StateColumn !in changed[op].columns ==>
      r == if |changed[op].rows| == 0 then None else Some(Post(changed[op].rows))
    ensures op in changed && StateColumn in changed[op].columns ==>
      && (r.None? <==> forall i :: 0 <= i < |changed[op].rows| ==> !IsNewRow(changed[op].rows[i]))
      && (r.Some? ==> forall i :: 0 <= i < |r.value.payload| ==> StateColumn !in r.value.payload[i])
      && (r.Some? ==> r.value.payload == DropState(KeepNew(changed[op].rows)))
  {
    if op !in changed || |changed[op].rows| == 0 then None
    else
      var payload := Payload(changed[op]);
      if |payload| == 0 then None else Some(Post(payload))
  }

  /** The id field of a row, as the model list reads it (null when the row has none). */
  function IdOf(row: Row, idField: string): Value {
    if idField in row then row[idField] else Null
  }

  function Ids(rows: seq<Row>, idField: string): (r: seq<Value>)
    ensures |r| == |rows|
    ensures forall i :: 0 <= i < |rows| ==> r[i] == IdOf(rows[i], idField)
  {
    seq(|rows|, i requires 0 <= i < |rows| => IdOf(rows[i], idField))
  }

  /** _persist_deleted: nothing for an absent or empty table, otherwise a delete of the rows' ids in row order. */
  function PersistDeleted(changed: map<Operation, Frame>, idField: string): (r: Option<Request>)
    ensures r.None? <==> Deleted !in changed || |changed[Deleted].rows| == 0
    ensures r.Some? ==> r.value.Delete? && |r.value.ids| == |changed[Deleted].rows|
    ensures r.Some? ==> forall i :: 0 <= i < |r.value.ids| ==> r.value.ids[i] == IdOf(changed[Deleted].rows[i], idField)
  {
    if Deleted !in changed || |changed[Deleted].rows| == 0 then None
    else Some(Delete(Ids(changed[Deleted].rows, idField)))
  }

  /** persist: one result per operation, each computed from that operation's table alone. */
  function Persist(changed: map<Operation, Frame>, idField: string): (r: map<Operation, Option<Request>>)
    ensures r.Keys == {New, Edited, Deleted}
    ensures r[New] == PersistNewOrEdited(changed, New)
    ensures r[Edited] == PersistNewOrEdited(changed, Edited)
    ensures r[Deleted] == PersistDeleted(changed, idField)
  {
    map[New := PersistNewOrEdited(changed, New),
        Edited := PersistNewOrEdited(changed, Edited),
        Deleted := PersistDeleted(changed, idField)]
  }

  /** The three operations are independent: an operation's result depends on its own table only. */
  lemma PersistIndependent(c1: map<Operation, Frame>, c2: map<Operation, Frame>, idField: string, op: Operation)
    requires (op in c1 <==> op in c2) && (op in c1 ==> c1[op] == c2[op])
    ensures Persist(c1, idField)[op] == Persist(c2, idField)[op]
  {
    assert op == New || op == Edited || op == Deleted;
  }

  /** Added rows of a snapshot without a state column are posted as projected, all of them. */
  lemma NewPayloadIsAddedRows(snapshot: Frame, added: seq<Row>)
    requires StateColumn !in snapshot.columns
    ensures PersistNewOrEdited(map[New := NewRows(snapshot, added)], New)
      == if |added| == 0 then None else Some(Post(ProjectAll(added, snapshot.columns)))
  {
  }

  /** The merged ("new") side of each effective edit, projected onto the snapshot's columns. */
  function NewSides(records: seq<Row>, edits: seq<Edit>, columns: seq<string>): (r: seq<Row>)
    requires EditsInRange(edits, |records|)
    ensures |r| == |edits|
  {
    seq(|edits|, k requires 0 <= k < |edits| => Project(Merge(records[edits[k].position], edits[k].changes), columns))
  }

  lemma DropStateAppend(a: seq<Row>, b: seq<Row>)
    ensures DropState(a + b) == DropState(a) + DropState(b)
  {
  }

  /** One old/new pair, as displayed, filtered to "new" and with the state column dropped, is the merged row. */
  lemma PairKeepsNewSide(original: Row, merged: Row, columns: seq<string>)
    requires StateColumn !in columns
    ensures DropState(KeepNew(ProjectAll([Tag(original, OldState), Tag(merged, NewState)], columns + [StateColumn])))
      == [Project(merged, columns)]
  {
    var tagged := columns + [StateColumn];
    var oldRow := Project(Tag(original, OldState), tagged);
    var newRow := Project(Tag(merged, NewState), tagged);
    assert ProjectAll([Tag(original, OldState), Tag(merged, NewState)], tagged) == [oldRow, newRow];
    assert !IsNewRow(oldRow) && IsNewRow(newRow);
    assert [oldRow, newRow][..1] == [oldRow] && [oldRow][..0] == [];
    assert KeepNew([oldRow]) == [];
    assert KeepNew([oldRow, newRow]) == KeepNew([oldRow]) + [newRow];
    assert newRow - {StateColumn} == Project(merged, columns);
  }

  lemma NewSidesSnoc(records: seq<Row>, edits: seq<Edit>, columns: seq<string>)
    requires EditsInRange(edits, |records|) && |edits| > 0
    ensures EditsInRange(edits[..|edits| - 1], |records|)
    ensures NewSides(records, edits, columns) == NewSides(records, edits[..|edits| - 1], columns)
      + [Project(Merge(records[edits[|edits| - 1].position], edits[|edits| - 1].changes), columns)]
  {
  }

  /** The rows of an unsuppressed pair list, filtered to "new" and with the state column dropped, are the merged rows. */
  lemma {:induction false} NewSidesOfPairs(records: seq<Row>, edits: seq<Edit>, columns: seq<string>)
    requires EditsInRange(edits, |records|)
    requires StateColumn !in columns
    ensures DropState(KeepNew(ProjectAll(Pairs(records, edits, false), columns + [StateColumn])))
      == NewSides(records, edits, columns)
  {
    if |edits| > 0 {
      var tagged := columns + [StateColumn];
      var init := edits[..|edits| - 1];
      var last := edits[|edits| - 1];
      var merged := Merge(records[last.position], last.changes);
      var pair := [Tag(records[last.position], OldState), Tag(merged, NewState)];
      var front := Pairs(records, init, false);
      NewSidesSnoc(records, edits, columns);
      assert Pairs(records, edits, false) == front + pair;
      NewSidesOfPairs(records, init, columns);
      PairKeepsNewSide(records[last.position], merged, columns);
      ProjectAllAppend(front, pair, tagged);
      var projected := ProjectAll(front, tagged);
      KeepNewAppend(projected, ProjectAll(pair, tagged));
      DropStateAppend(KeepNew(projected), KeepNew(ProjectAll(pair, tagged)));
    }
  }

  /**
   * What is posted for the edited table is exactly the merged row of each
   * effective edit, in buffer order, on the snapshot's columns; nothing is
   * posted when no edit changes anything.
   */
  lemma EditedPayloadIsNewSide(snapshot: Frame, edits: seq<Edit>)
    requires StateColumn !in snapshot.columns
    requires EditsInRange(edits, |snapshot.rows|)
    ensures var ch := Changed(Records(snapshot), edits);
      PersistNewOrEdited(map[Edited := EditedFrame(snapshot, edits, true).value], Edited)
        == if |ch| == 0 then None else Some(Post(NewSides(Records(snapshot), ch, snapshot.columns)))
  {
    var records := Records(snapshot);
    var ch := Changed(records, edits);
    SuppressionFiltersNoOps(records, edits);
    UnsuppressedLayout(records, ch);
    NewSidesOfPairs(records, ch, snapshot.columns);
  }

  /** What is posted for deletion is the id of the snapshot row at each deleted position, in order. */
  lemma DeletedPayloadIsIds(snapshot: Frame, positions: seq<nat>, idField: string)
    requires PositionsInRange(positions, |snapshot.rows|)
    ensures PersistDeleted(map[Deleted := DeletedRows(snapshot, positions).value], idField)
      == if |positions| == 0 then None
         else Some(Delete(seq(|positions|, i requires 0 <= i < |positions| => IdOf(snapshot.rows[positions[i]], idField))))
  {
    var deleted := DeletedRows(snapshot, positions).value;
    assert Ids(deleted.rows, idField)
      == seq(|positions|, i requires 0 <= i < |positions| => IdOf(snapshot.rows[positions[i]], idField));
  }
}
