/**
 * ModelSessionData (core/model_session_data.py): the per-model store of the
 * table snapshot and of the keys under which the grid widget keeps its edit
 * buffer. Rotating a key drops whatever was stored under the old one.
 */
module ModelStore {
  import opened Wrappers
  import opened Frames
  import opened Strings
  import opened EditorMeta
  import opened Session

  /**
   * Every kind has a key made from the model, the kind and a stamp no later
   * than the clock, and only current keys hold data.
   */
  ghost predicate KeysValid(model: string, keyMap: map<Kind, string>, stamps: map<Kind, nat>, clock: nat, stored: set<string>) {
    && (forall k: Kind :: k in keyMap && k in stamps && keyMap[k] == NewKey(model, k, stamps[k]) && stamps[k] <= clock)
    && stored <= {keyMap[TableData], keyMap[EditorData], keyMap[AuditData]}
  }

  /** Rotating one kind's key with a later stamp gives a key not current before and keeps the key invariant. */
  lemma RotateKey(model: string, keyMap: map<Kind, string>, stamps: map<Kind, nat>, clock: nat, stored: set<string>,
                  kind: Kind, stamp: nat)
    requires KeysValid(model, keyMap, stamps, clock, stored) && stamp > clock
    ensures NewKey(model, kind, stamp) !in {keyMap[TableData], keyMap[EditorData], keyMap[AuditData]}
    ensures KeysValid(model, keyMap[kind := NewKey(model, kind, stamp)], stamps[kind := stamp], stamp, stored - {keyMap[kind]})
  {
    NewKeyInjective(model, TableData, stamps[TableData], kind, stamp);
    NewKeyInjective(model, EditorData, stamps[EditorData], kind, stamp);
    NewKeyInjective(model, AuditData, stamps[AuditData], kind, stamp);
  }

  class ModelSessionData {
    const model: string
    /** _session_data: the model's own dictionary. */
    const sessionData: Store
    /** _st_session_state: the session state it is linked into. */
    const stSessionState: SessionState
    /** _key_map: the current key of each kind of data. */
    var keyMap: map<Kind, string>
    /** The stamp each current key was made with, and the latest stamp used. */
    ghost var stamps: map<Kind, nat>
    ghost var clock: nat

    ghost predicate Valid()
      reads this, sessionData
    {
      KeysValid(model, keyMap, stamps, clock, sessionData.items.Keys)
    }

    /** The model's dictionary is reachable from the session state under the model's name. */
    predicate Linked()
      reads this, stSessionState
    {
      model in stSessionState.entries && stSessionState.entries[model] == Nested(sessionData)
    }

    /** session_state[model][key], as a reader of the session state sees it. */
    function ViaSessionState(key: string): Option<Frame>
      reads this, stSessionState, sessionData
    {
      if Linked() && key in stSessionState.entries[model].store.items
      then Some(stSessionState.entries[model].store.items[key])
      else None
    }

    constructor (model: string, stSessionState: SessionState, stamp: nat)
      modifies stSessionState
      ensures Valid() && fresh(sessionData)
      ensures this.model == model && this.stSessionState == stSessionState
      ensures keyMap == KeyMap(model, stamp)
      ensures sessionData.items == map[]
      ensures stSessionState.entries == old(stSessionState.entries)[model := Nested(sessionData)]
      ensures Linked()
      ensures forall k :: GetData(k).None?
    {
      this.model := model;
      keyMap := KeyMap(model, stamp);
      stamps := map k | k in AllKinds :: stamp;
      clock := stamp;
      sessionData := new Store();
      this.stSessionState := stSessionState;
      new;
      stSessionState.entries := stSessionState.entries[model := Nested(sessionData)];
    }

    method UpdateData(kind: Kind, value: Frame)
      requires Valid()
      modifies sessionData
      ensures Valid()
      ensures sessionData.items == old(sessionData.items)[keyMap[kind] := value]
      ensures GetData(kind) == Some(value)
      ensures Linked() ==> ViaSessionState(keyMap[kind]) == Some(value)
    {
      sessionData.items := sessionData.items[keyMap[kind] := value];
    }

    /**
     * get_data: the frame the model's own dictionary holds under the kind's
     * current key, or none; while the store is linked, the same frame
     * session_state[model] shows there.
     */
    function GetData(kind: Kind): (r: Option<Frame>)
      requires Valid()
      reads this, sessionData, stSessionState
      ensures r.Some? <==> GetKey(kind) in sessionData.items
      ensures r.Some? ==> r.value == sessionData.items[GetKey(kind)]
      ensures Linked() ==> r == ViaSessionState(GetKey(kind))
    {
      if keyMap[kind] in sessionData.items then Some(sessionData.items[keyMap[kind]]) else None
    }

    /** Rotates the key of one kind: the old key's data is dropped and a key never used before is installed. */
    method ChangeKey(kind: Kind, stamp: nat) returns (key: string)
      requires Valid() && stamp > clock
      modifies this, sessionData
      ensures Valid() && clock == stamp
      ensures key == NewKey(model, kind, stamp)
      ensures key != old(keyMap[kind])
      ensures keyMap == old(keyMap)[kind := key]
      ensures sessionData.items == old(sessionData.items) - {old(keyMap[kind])}
      ensures GetData(kind).None?
      ensures unchanged(stSessionState)
    {
      var oldKey := keyMap[kind];
      sessionData.items := sessionData.items - {oldKey};
      key := NewKey(model, kind, stamp);
      RotateKey(model, keyMap, stamps, clock, old(sessionData.items.Keys), kind, stamp);
      assert sessionData.items.Keys == old(sessionData.items.Keys) - {oldKey};
      keyMap := keyMap[kind := key];
      stamps := stamps[kind := stamp];
      clock := stamp;
    }

    /** The current key of a kind; its first two '|'-separated fields are the model and the kind. */
    function GetKey(kind: Kind): (key: string)
      requires Valid()
      reads this, sessionData
      ensures '|' !in model ==>
        var fields := Split(key, '|'); |fields| == 3 && fields[0] == model && fields[1] == KindName(kind)
      ensures key != model
    {
      NewKeySplit(model, kind, stamps[kind]);
      NewKeyIsNotModel(model, kind, stamps[kind]);
      keyMap[kind]
    }

    /** The widget's data for one operation, or the operation's default when there is none. */
    function GetEditorData(op: Operation): (r: OpData)
      requires Valid()
      reads this, sessionData, stSessionState
      ensures OperationOf(r) == op
      ensures BufferAt(stSessionState.entries, keyMap[EditorData]).None? ==> IsEmptyData(r)
      ensures r == EditorField(BufferAt(stSessionState.entries, keyMap[EditorData]), op)
    {
      EditorField(BufferAt(stSessionState.entries, keyMap[EditorData]), op)
    }

    /**
     * clear_data: TableData drops only the snapshot, EditorData drops only the
     * widget's buffer; no kind, or any other kind, empties both dictionaries.
     */
    method ClearData(kind: Option<Kind>)
      requires Valid()
      modifies sessionData, stSessionState
      ensures Valid() && unchanged(this)
      ensures kind == Some(TableData) ==>
        && sessionData.items == old(sessionData.items) - {keyMap[TableData]}
        && stSessionState.entries == old(stSessionState.entries)
        && GetData(TableData).None?
      ensures kind == Some(EditorData) ==>
        && sessionData.items == old(sessionData.items)
        && stSessionState.entries == old(stSessionState.entries) - {keyMap[EditorData]}
        && (old(Linked()) ==> Linked())
        && (forall op :: IsEmptyData(GetEditorData(op)))
      ensures kind.None? || kind == Some(AuditData) ==>
        sessionData.items == map[] && stSessionState.entries == map[]
    {
      if kind == Some(TableData) {
        sessionData.items := sessionData.items - {keyMap[TableData]};
        return;
      }
      if kind == Some(EditorData) {
        NewKeyIsNotModel(model, EditorData, stamps[EditorData]);
        stSessionState.entries := stSessionState.entries - {keyMap[EditorData]};
        return;
      }
      sessionData.items := map[];
      stSessionState.entries := map[];
    }
  }
}
