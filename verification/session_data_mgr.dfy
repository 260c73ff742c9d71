/**
 * SessionDataMgr (core/session_data_mgr.py): a process-wide manager that
 * keeps each kind of session data under a versioned key directly in a
 * session dictionary. The class-level `_instance` slot is the Registry.
 */
module Manager {
  import opened Wrappers
  import opened Strings
  import opened EditorMeta
  import opened Session

  /** The key a kind's data is kept under: "<kind>_<stamp>". */
  function MgrKey(kind: Kind, stamp: nat): string {
    KindName(kind) + "_" + Decimal(stamp)
  }

  /** One key per kind, all made with the same stamp. */
  function MgrKeyMap(stamp: nat): (m: map<Kind, string>)
    ensures forall k :: k in m && m[k] == MgrKey(k, stamp)
    ensures forall k1, k2 :: k1 in m && k2 in m && k1 != k2 ==> m[k1] != m[k2]
  {
    var m := map k | k in AllKinds :: MgrKey(k, stamp);
    forall k: Kind ensures k in m {
      assert k.TableData? || k.EditorData? || k.AuditData?;
    }
    forall k1, k2 | k1 in m && k2 in m && k1 != k2 ensures m[k1] != m[k2] {
      MgrKeyInjective(k1, stamp, k2, stamp);
    }
    m
  }

  /** Keys for different (kind, stamp) pairs never collide. */
  lemma MgrKeyInjective(k1: Kind, s1: nat, k2: Kind, s2: nat)
    requires k1 != k2 || s1 != s2
    ensures MgrKey(k1, s1) != MgrKey(k2, s2)
  {
    var t1, t2 := MgrKey(k1, s1), MgrKey(k2, s2);
    KindNameFacts(k1);
    KindNameFacts(k2);
    if k1 != k2 {
      assert t1[0] == KindName(k1)[0] && t2[0] == KindName(k2)[0];
    } else {
      var p := KindName(k1) + "_";
      assert t1 == p + Decimal(s1) && t2 == p + Decimal(s2);
      DecimalInjective(s1, s2);
      assert t1[|p|..] == Decimal(s1) && t2[|p|..] == Decimal(s2);
    }
  }

  /** SessionDataMgr._instance: the registered manager, if any. */
  class Registry {
    var instance: SessionDataMgr?

    ghost predicate Valid()
      reads this, instance
    {
      instance != null ==> instance.initialised
    }

    constructor ()
      ensures instance == null && Valid()
    {
      instance := null;
    }

    /** reset_instance. */
    method ResetInstance()
      modifies this
      ensures instance == null && Valid()
    {
      instance := null;
    }
  }

  class SessionDataMgr {
    /** False for an object built while another instance was registered: its constructor returned early. */
    const initialised: bool
    /** session_data: the session dictionary the manager writes into. */
    const sessionData: SessionState?
    /** key_map: the current key of each kind. */
    var keyMap: map<Kind, string>
    ghost var stamps: map<Kind, nat>
    ghost var clock: nat

    ghost predicate Valid()
      reads this
    {
      && initialised && sessionData != null
      && (forall k: Kind :: k in keyMap && k in stamps && keyMap[k] == MgrKey(k, stamps[k]) && stamps[k] <= clock)
    }

    /**
     * The first construction initialises the manager and registers it; a
     * construction while an instance is registered leaves everything as it was.
     */
    constructor (registry: Registry, sessionData: SessionState, stamp: nat)
      requires registry.Valid()
      modifies registry
      ensures registry.Valid()
      ensures old(registry.instance) != null ==> !initialised && registry.instance == old(registry.instance)
      ensures old(registry.instance) == null ==>
        && Valid() && registry.instance == this
        && this.sessionData == sessionData && keyMap == MgrKeyMap(stamp) && clock == stamp
        && ((forall k :: MgrKey(k, stamp) !in sessionData.entries) ==> forall k :: GetData(k).None?)
    {
      if registry.instance != null {
        initialised := false;
        this.sessionData := null;
        keyMap := map[];
        stamps := map[];
        clock := 0;
      } else {
        initialised := true;
        this.sessionData := sessionData;
        keyMap := MgrKeyMap(stamp);
        stamps := map k | k in AllKinds :: stamp;
        clock := stamp;
      }
      new;
      if initialised {
        registry.instance := this;
      }
    }

    /**
     * clear_data: a kind drops that kind's entry only; no kind drops every
     * key-map entry. Entries under other keys are left as they were.
     */
    method ClearData(kind: Option<Kind>)
      requires Valid()
      modifies sessionData
      ensures Valid()
      ensures kind.Some? ==> sessionData.entries == old(sessionData.entries) - {keyMap[kind.value]}
      ensures kind.None? ==>
        sessionData.entries == old(sessionData.entries) - {keyMap[TableData], keyMap[EditorData], keyMap[AuditData]}
    {
      if kind.Some? {
        sessionData.entries := sessionData.entries - {keyMap[kind.value]};
        return;
      }
      var keys := [keyMap[TableData], keyMap[EditorData], keyMap[AuditData]];
      var i := 0;
      while i < |keys|
        invariant 0 <= i <= |keys|
        invariant sessionData.entries == old(sessionData.entries) - (set j | 0 <= j < i :: keys[j])
      {
        sessionData.entries := sessionData.entries - {keys[i]};
        i := i + 1;
      }
      assert (set j | 0 <= j < 3 :: keys[j]) == {keys[0], keys[1], keys[2]} by {
        assert 0 <= 0 < 3 && 0 <= 1 < 3 && 0 <= 2 < 3;
      }
    }

    method UpdateData(kind: Kind, value: Entry)
      requires Valid()
      modifies sessionData
      ensures Valid()
      ensures sessionData.entries == old(sessionData.entries)[keyMap[kind] := value]
      ensures GetData(kind) == Some(value)
    {
      sessionData.entries := sessionData.entries[keyMap[kind] := value];
    }

    /**
     * get_data: the entry under the kind's current key, or none; for the
     * editor kind, get_editor_data succeeds exactly when it is an edit buffer.
     */
    function GetData(kind: Kind): (r: Option<Entry>)
      requires Valid()
      reads this, sessionData
      ensures r.Some? <==> GetKey(kind) in sessionData.entries
      ensures r.Some? ==> r.value == sessionData.entries[GetKey(kind)]
      ensures kind == EditorData ==> forall op :: GetEditorData(op).Success? <==> r.Some? && r.value.Editor?
    {
      if keyMap[kind] in sessionData.entries then Some(sessionData.entries[keyMap[kind]]) else None
    }

    /** change_key: drops the data under the kind's key and installs a key never used before, for that kind only. */
    method ChangeKey(kind: Kind, stamp: nat)
      requires Valid() && stamp > clock
      modifies this, sessionData
      ensures Valid() && clock == stamp
      ensures keyMap == old(keyMap)[kind := MgrKey(kind, stamp)]
      ensures keyMap[kind] !in {old(keyMap[TableData]), old(keyMap[EditorData]), old(keyMap[AuditData])}
      ensures sessionData.entries == old(sessionData.entries) - {old(keyMap[kind])}
    {
      sessionData.entries := sessionData.entries - {keyMap[kind]};
      MgrKeyInjective(TableData, stamps[TableData], kind, stamp);
      MgrKeyInjective(EditorData, stamps[EditorData], kind, stamp);
      MgrKeyInjective(AuditData, stamps[AuditData], kind, stamp);
      keyMap := keyMap[kind := MgrKey(kind, stamp)];
      stamps := stamps[kind := stamp];
      clock := stamp;
    }

    function GetKey(kind: Kind): (key: string)
      requires Valid()
      reads this
      ensures |key| > |KindName(kind)| + 1 && key[..|KindName(kind)| + 1] == KindName(kind) + "_"
    {
      keyMap[kind]
    }

    /**
     * get_editor_data: the operation's field of the buffer under the
     * EditorData key, or its default; AttributeError when there is no buffer.
     */
    function GetEditorData(op: Operation): (r: Result<OpData, PyError>)
      requires Valid()
      reads this, sessionData
      ensures r.Success? <==> BufferAt(sessionData.entries, keyMap[EditorData]).Some?
      ensures r.Failure? ==> r.error == AttributeError
      ensures r.Success? ==> OperationOf(r.value) == op
      ensures r.Success? ==> r.value == EditorField(BufferAt(sessionData.entries, keyMap[EditorData]), op)
    {
      var buffer := BufferAt(sessionData.entries, keyMap[EditorData]);
      if buffer.None? then Failure(AttributeError) else Success(EditorField(buffer, op))
    }
  }

  /**
   * get_instance: non-empty session data always replaces the registered
   * manager with a fresh one over that data; otherwise the registered manager
   * is returned, or one is built over the application's session state.
   */
  method GetInstance(registry: Registry, sessionData: SessionState?, appState: SessionState, stamp: nat)
    returns (mgr: SessionDataMgr)
    requires registry.Valid()
    modifies registry
    ensures registry.Valid() && registry.instance == mgr && mgr.initialised
    ensures sessionData != null && old(sessionData.entries) != map[] ==>
      fresh(mgr) && mgr.Valid() && mgr.sessionData == sessionData && mgr.keyMap == MgrKeyMap(stamp)
    ensures (sessionData == null || old(sessionData.entries) == map[]) && old(registry.instance) != null ==>
      mgr == old(registry.instance)
    ensures (sessionData == null || old(sessionData.entries) == map[]) && old(registry.instance) == null ==>
      fresh(mgr) && mgr.Valid() && mgr.sessionData == appState && mgr.keyMap == MgrKeyMap(stamp)
  {
    if sessionData != null && sessionData.entries != map[] {
      registry.ResetInstance();
      mgr := new SessionDataMgr(registry, sessionData, stamp);
      return;
    }
    if registry.instance != null {
      return registry.instance;
    }
    mgr := new SessionDataMgr(registry, appState, stamp);
  }
}
