/**
 * SessionData (core/session_data.py): the grid widget's key carries a version
 * counter kept in the session state under "reset"; bumping the counter gives
 * the widget a new key, which discards its edit buffer. The readers return
 * one field of the buffer under the current key, or that field's default.
 */
module EditorSession {
  import opened Wrappers
  import opened Strings
  import opened Frames
  import opened EditorMeta
  import opened Session

  /** SessionData.ResetKey: the session slot of the version counter. */
  const ResetKey: string := "reset"

  /** The message of the KeyError raised when the counter is missing. */
  const MissingCounterMessage: string := "Data editor key \"" + ResetKey + "\" does not exist in session state"

  const KeyPrefix: string := "data_editor_key_version_"

  /** The widget key for a version of the counter. */
  function DataEditorKey(version: nat): (key: string)
    ensures |key| > |KeyPrefix| && key[..|KeyPrefix|] == KeyPrefix
    ensures forall i :: |KeyPrefix| <= i < |key| ==> IsDigit(key[i])
  {
    KeyPrefix + Decimal(version)
  }

  /** The version can be read back from the key. */
  function KeyVersion(key: string): nat
    requires forall i :: |KeyPrefix| <= i < |key| ==> IsDigit(key[i])
  {
    if |key| < |KeyPrefix| then 0 else DecimalValue(key[|KeyPrefix|..])
  }

  lemma KeyVersionRoundTrip(version: nat)
    ensures KeyVersion(DataEditorKey(version)) == version
  {
    assert DataEditorKey(version)[|KeyPrefix|..] == Decimal(version);
    DecimalRoundTrip(version);
  }

  /** Different versions give different widget keys. */
  lemma DataEditorKeyInjective(v1: nat, v2: nat)
    requires v1 != v2
    ensures DataEditorKey(v1) != DataEditorKey(v2)
  {
    KeyVersionRoundTrip(v1);
    KeyVersionRoundTrip(v2);
  }

  /** A widget key never names the counter's own slot. */
  lemma ResetKeyIsNotAWidgetKey(version: nat)
    ensures DataEditorKey(version) != ResetKey
  {
    assert |DataEditorKey(version)| > |ResetKey|;
  }

  /** The counter slot, when present, holds a counter. */
  predicate CounterWellTyped(entries: map<string, Entry>) {
    ResetKey in entries ==> entries[ResetKey].Counter?
  }

  /** The version in effect: the counter's value, or 0 before the first key request. */
  function Version(entries: map<string, Entry>): nat
    requires CounterWellTyped(entries)
  {
    if ResetKey in entries then entries[ResetKey].n else 0
  }

  /**
   * get_data_editor_key: creates the counter at 0 on first use and never
   * changes an existing one; the key is that of the current version.
   */
  method GetDataEditorKey(state: SessionState) returns (key: string)
    requires CounterWellTyped(state.entries)
    modifies state
    ensures CounterWellTyped(state.entries) && ResetKey in state.entries
    ensures key == DataEditorKey(Version(old(state.entries)))
    ensures Version(state.entries) == Version(old(state.entries))
    ensures ResetKey !in old(state.entries) ==> state.entries == old(state.entries)[ResetKey := Counter(0)]
    ensures ResetKey in old(state.entries) ==> state.entries == old(state.entries)
  {
    if ResetKey !in state.entries {
      state.entries := state.entries[ResetKey := Counter(0)];
    }
    key := DataEditorKey(state.entries[ResetKey].n);
  }

  /**
   * reset_data_editor: KeyError when the counter was never created; otherwise
   * the counter goes up by one, so the widget key is one never used before.
   */
  method ResetDataEditor(state: SessionState) returns (outcome: Outcome<PyError>)
    requires CounterWellTyped(state.entries)
    modifies state
    ensures CounterWellTyped(state.entries)
    ensures ResetKey !in old(state.entries) ==>
      outcome == Fail(KeyError(MissingCounterMessage))
      && state.entries == old(state.entries)
    ensures ResetKey in old(state.entries) ==>
      && outcome.Pass?
      && state.entries == old(state.entries)[ResetKey := Counter(old(state.entries)[ResetKey].n + 1)]
      && forall v: nat :: v <= Version(old(state.entries)) ==> DataEditorKey(Version(state.entries)) != DataEditorKey(v)
  {
    if ResetKey !in state.entries {
      return Fail(KeyError(MissingCounterMessage));
    }
    var n := state.entries[ResetKey].n;
    state.entries := state.entries[ResetKey := Counter(n + 1)];
    forall v | v <= n ensures DataEditorKey(n + 1) != DataEditorKey(v) {
      DataEditorKeyInjective(n + 1, v);
    }
    outcome := Pass;
  }

  /** The buffer the widget keeps under the current key (anything else there reads as no buffer). */
  method CurrentBuffer(state: SessionState) returns (buffer: Option<EditorBuffer>)
    requires CounterWellTyped(state.entries)
    modifies state
    ensures CounterWellTyped(state.entries) && ResetKey in state.entries
    ensures Version(state.entries) == Version(old(state.entries))
    ensures ResetKey in old(state.entries) ==> state.entries == old(state.entries)
    ensures ResetKey !in old(state.entries) ==> state.entries == old(state.entries)[ResetKey := Counter(0)]
    ensures buffer == BufferAt(old(state.entries), DataEditorKey(Version(old(state.entries))))
  {
    var key := GetDataEditorKey(state);
    ResetKeyIsNotAWidgetKey(Version(old(state.entries)));
    buffer := BufferAt(state.entries, key);
  }

  /** get_edit_data: the buffer's edited rows, or none. */
  method GetEditData(state: SessionState) returns (edits: seq<Edit>)
    requires CounterWellTyped(state.entries)
    modifies state
    ensures CounterWellTyped(state.entries) && Version(state.entries) == Version(old(state.entries))
    ensures ResetKey in old(state.entries) ==> state.entries == old(state.entries)
    ensures ResetKey !in old(state.entries) ==> state.entries == old(state.entries)[ResetKey := Counter(0)]
    ensures edits == EditorField(BufferAt(old(state.entries), DataEditorKey(Version(old(state.entries)))), Edited).edits
  {
    var buffer := CurrentBuffer(state);
    edits := EditorField(buffer, Edited).edits;
  }

  /** get_new_data: the buffer's added rows, or none. */
  method GetNewData(state: SessionState) returns (rows: seq<Row>)
    requires CounterWellTyped(state.entries)
    modifies state
    ensures CounterWellTyped(state.entries) && Version(state.entries) == Version(old(state.entries))
    ensures ResetKey in old(state.entries) ==> state.entries == old(state.entries)
    ensures ResetKey !in old(state.entries) ==> state.entries == old(state.entries)[ResetKey := Counter(0)]
    ensures rows == EditorField(BufferAt(old(state.entries), DataEditorKey(Version(old(state.entries)))), New).rows
  {
    var buffer := CurrentBuffer(state);
    rows := EditorField(buffer, New).rows;
  }

  /** get_deleted_data: the buffer's deleted positions, or none. */
  method GetDeletedData(state: SessionState) returns (positions: seq<nat>)
    requires CounterWellTyped(state.entries)
    modifies state
    ensures CounterWellTyped(state.entries) && Version(state.entries) == Version(old(state.entries))
    ensures ResetKey in old(state.entries) ==> state.entries == old(state.entries)
    ensures ResetKey !in old(state.entries) ==> state.entries == old(state.entries)[ResetKey := Counter(0)]
    ensures positions == EditorField(BufferAt(old(state.entries), DataEditorKey(Version(old(state.entries)))), Deleted).positions
  {
    var buffer := CurrentBuffer(state);
    positions := EditorField(buffer, Deleted).positions;
  }
}
