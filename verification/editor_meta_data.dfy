/**
 * The fixed vocabulary of the editor: the three operations and the widget's
 * field for each, the kinds of session data, the widget's edit buffer, and
 * the format of the versioned session keys (core/editor_meta_data.py).
 */
module EditorMeta {
  import opened Wrappers
  import opened Frames
  import opened Strings

  datatype Operation = New | Edited | Deleted

  /** The kinds of session data a model keeps (ModelSessionDataEnum). */
  datatype Kind = TableData | EditorData | AuditData

  /** The kinds in enum order. */
  const AllKinds: seq<Kind> := [TableData, EditorData, AuditData]

  function KindName(kind: Kind): string {
    match kind
    case TableData => "TableData"
    case EditorData => "EditorData"
    case AuditData => "AuditData"
  }

  /** What the widget's buffer holds for one operation. */
  datatype OpData =
    | NewRowsData(rows: seq<Row>)
    | EditedRowsData(edits: seq<Edit>)
    | DeletedRowsData(positions: seq<nat>)

  function OperationOf(d: OpData): Operation {
    match d
    case NewRowsData(_) => New
    case EditedRowsData(_) => Edited
    case DeletedRowsData(_) => Deleted
  }

  predicate IsEmptyData(d: OpData) {
    match d
    case NewRowsData(rows) => rows == []
    case EditedRowsData(edits) => edits == []
    case DeletedRowsData(positions) => positions == []
  }

  datatype EditorMetaData = EditorMetaData(operationType: Operation, operationKey: string, defaultValue: OpData)

  /** EditorMetaData.get_editor_metadata_map. */
  function EditorMetadataMap(): (m: map<Operation, EditorMetaData>)
    ensures m.Keys == {New, Edited, Deleted}
    ensures forall op :: op in m ==>
      m[op].operationType == op && OperationOf(m[op].defaultValue) == op && IsEmptyData(m[op].defaultValue)
    ensures m[New].operationKey == "added_rows"
    ensures m[Edited].operationKey == "edited_rows"
    ensures m[Deleted].operationKey == "deleted_rows"
    ensures m[New].operationKey != m[Edited].operationKey
    ensures m[New].operationKey != m[Deleted].operationKey
    ensures m[Edited].operationKey != m[Deleted].operationKey
  {
    map[New := EditorMetaData(New, "added_rows", NewRowsData([])),
        Edited := EditorMetaData(Edited, "edited_rows", EditedRowsData([])),
        Deleted := EditorMetaData(Deleted, "deleted_rows", DeletedRowsData([]))]
  }

  function Meta(op: Operation): EditorMetaData {
    var m := EditorMetadataMap();
    assert op in m by { assert op == New || op == Edited || op == Deleted; }
    m[op]
  }

  /** The widget's state dictionary for one editor: each field may be missing. */
  datatype EditorBuffer = EditorBuffer(
    addedRows: Option<seq<Row>>,
    editedRows: Option<seq<Edit>>,
    deletedRows: Option<seq<nat>>)
  {
    /** The buffer's field under a key, or none when that field is missing or the key is not a field name. */
    function Get(key: string): Option<OpData> {
      if key == "added_rows" && addedRows.Some? then Some(NewRowsData(addedRows.value))
      else if key == "edited_rows" && editedRows.Some? then Some(EditedRowsData(editedRows.value))
      else if key == "deleted_rows" && deletedRows.Some? then Some(DeletedRowsData(deletedRows.value))
      else None
    }
  }

  /**
   * The operation's data read from a (possibly absent) buffer under the
   * operation's field name, falling back to the operation's default.
   */
  function EditorField(buffer: Option<EditorBuffer>, op: Operation): (r: OpData)
    ensures OperationOf(r) == op
    ensures op == New ==> r.NewRowsData?
    ensures op == Edited ==> r.EditedRowsData?
    ensures op == Deleted ==> r.DeletedRowsData?
    ensures buffer.None? ==> IsEmptyData(r)
    ensures buffer.Some? && op == New ==>
      r.rows == (if buffer.value.addedRows.Some? then buffer.value.addedRows.value else [])
    ensures buffer.Some? && op == Edited ==>
      r.edits == (if buffer.value.editedRows.Some? then buffer.value.editedRows.value else [])
    ensures buffer.Some? && op == Deleted ==>
      r.positions == (if buffer.value.deletedRows.Some? then buffer.value.deletedRows.value else [])
  {
    var m := Meta(op);
    if buffer.None? then m.defaultValue
    else match buffer.value.Get(m.operationKey)
      case Some(d) => d
      case None => m.defaultValue
  }

  // ---------------------------------------------------------------- session keys

  /** The part of a key after the model: "kind|stamp". */
  function KindTag(kind: Kind, stamp: nat): string {
    KindName(kind) + "|" + Decimal(stamp)
  }

  /** EditorMetaData.get_new_key: "model|kind|stamp", the clock reading given as a counter. */
  function NewKey(model: string, kind: Kind, stamp: nat): string {
    model + "|" + KindTag(kind, stamp)
  }

  /** EditorMetaData.get_key_map: one fresh key per kind. */
  function KeyMap(model: string, stamp: nat): (m: map<Kind, string>)
    ensures forall k :: k in m && m[k] == NewKey(model, k, stamp)
    ensures forall k1, k2 :: k1 in m && k2 in m && k1 != k2 ==> m[k1] != m[k2]
  {
    var m := map k | k in AllKinds :: NewKey(model, k, stamp);
    forall k: Kind ensures k in m {
      assert k.TableData? || k.EditorData? || k.AuditData?;
    }
    forall k1, k2 | k1 in m && k2 in m && k1 != k2 ensures m[k1] != m[k2] {
      NewKeyInjective(model, k1, stamp, k2, stamp);
    }
    m
  }

  lemma KindNameFacts(kind: Kind)
    ensures |KindName(kind)| > 0
    ensures '|' !in KindName(kind)
  {
  }

  /** Splitting a key on '|' gives the model, the kind and the stamp back. */
  lemma NewKeySplit(model: string, kind: Kind, stamp: nat)
    ensures '|' !in model ==> Split(NewKey(model, kind, stamp), '|') == [model, KindName(kind), Decimal(stamp)]
  {
    if '|' in model {
      return;
    }
    var name, digits := KindName(kind), Decimal(stamp);
    KindNameFacts(kind);
    assert '|' !in digits;
    SplitWithoutSeparator(digits, '|');
    SplitAtFirstSeparator(name, digits, '|');
    assert NewKey(model, kind, stamp) == model + ['|'] + (name + ['|'] + digits);
    SplitAtFirstSeparator(model, name + ['|'] + digits, '|');
  }

  /** Tags for different (kind, stamp) pairs differ: kind names differ in their first letter, stamps in their digits. */
  lemma KindTagInjective(k1: Kind, s1: nat, k2: Kind, s2: nat)
    requires k1 != k2 || s1 != s2
    ensures KindTag(k1, s1) != KindTag(k2, s2)
  {
    var t1, t2 := KindTag(k1, s1), KindTag(k2, s2);
    if k1 != k2 {
      assert t1[0] == KindName(k1)[0] && t2[0] == KindName(k2)[0];
    } else {
      var p := KindName(k1) + "|";
      assert t1 == p + Decimal(s1) && t2 == p + Decimal(s2);
      DecimalInjective(s1, s2);
      if t1 == t2 {
        CancelPrefix(p, Decimal(s1), Decimal(s2));
      }
    }
  }

  /** Keys for different (kind, stamp) pairs of one model never collide. */
  lemma NewKeyInjective(model: string, k1: Kind, s1: nat, k2: Kind, s2: nat)
    requires k1 != k2 || s1 != s2
    ensures NewKey(model, k1, s1) != NewKey(model, k2, s2)
  {
    var p := model + "|";
    KindTagInjective(k1, s1, k2, s2);
    if NewKey(model, k1, s1) == NewKey(model, k2, s2) {
      CancelPrefix(p, KindTag(k1, s1), KindTag(k2, s2));
    }
  }

  /** A key is longer than the model name, so it never equals the model's own session entry. */
  lemma NewKeyIsNotModel(model: string, kind: Kind, stamp: nat)
    ensures NewKey(model, kind, stamp) != model
  {
    assert |NewKey(model, kind, stamp)| > |model|;
  }
}
