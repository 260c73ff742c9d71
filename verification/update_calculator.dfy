/**
 * UpdateCalculator.calculate_update (core/update_calculator.py): the three
 * diff tables for one model, read from the widget's buffer through the
 * model's session store.
 */
module UpdateCalculator {
  import opened Wrappers
  import opened Frames
  import opened EditorMeta
  import opened Session
  import opened ModelStore
  import opened Diff

  /** The update for the given buffer contents; IndexError when an edited or deleted position is outside the snapshot. */
  function Calculate(snapshot: Frame, added: seq<Row>, edits: seq<Edit>, deleted: seq<nat>): (r: Result<map<Operation, Frame>, PyError>)
    ensures r.Success? <==> EditsInRange(edits, |snapshot.rows|) && PositionsInRange(deleted, |snapshot.rows|)
    ensures r.Failure? ==> r.error == IndexError
    ensures r.Success? ==>
      && r.value.Keys == {New, Edited, Deleted}
      && r.value[New] == NewRows(snapshot, added)
      && Success(r.value[Edited]) == EditedFrame(snapshot, edits, true)
      && Success(r.value[Deleted]) == DeletedRows(snapshot, deleted)
  {
    var edited := EditedFrame(snapshot, edits, true);
    var removed := DeletedRows(snapshot, deleted);
    if edited.Failure? then Failure(edited.error)
    else if removed.Failure? then Failure(removed.error)
    else Success(map[New := NewRows(snapshot, added), Edited := edited.value, Deleted := removed.value])
  }

  /**
   * calculate_update: the new, edited and deleted tables, each computed from
   * the operation's field of the widget's buffer (or its default).
   */
  method CalculateUpdate(snapshot: Frame, session: ModelSessionData) returns (r: Result<map<Operation, Frame>, PyError>)
    requires session.Valid()
    ensures r == Calculate(snapshot,
      session.GetEditorData(New).rows, session.GetEditorData(Edited).edits, session.GetEditorData(Deleted).positions)
    ensures BufferAt(session.stSessionState.entries, session.keyMap[EditorData]).None? ==>
      && r.Success?
      && r.value[New] == Frame(snapshot.columns, [])
      && r.value[Edited] == Frame(snapshot.columns + [StateColumn], [])
      && r.value[Deleted] == Frame(snapshot.columns, [])
  {
    var added := session.GetEditorData(New).rows;
    var newRows := NewRows(snapshot, added);
    var edited := EditedRows(snapshot, session.GetEditorData(Edited).edits, true);
    if edited.Failure? {
      return Failure(edited.error);
    }
    var deleted := DeletedRows(snapshot, session.GetEditorData(Deleted).positions);
    if deleted.Failure? {
      return Failure(deleted.error);
    }
    r := Success(map[New := newRows, Edited := edited.value, Deleted := deleted.value]);
  }
}
