# Grid-editor edit reconciliation, modelled in Dafny

This project models the edit-reconciliation core of the LearningStreamlit
grid editor. A table snapshot is shown in an editable grid widget. The
widget keeps an edit buffer with three fields:

- `added_rows`, the list of new rows;
- `edited_rows`, which maps a row position to the changed fields;
- `deleted_rows`, the list of deleted positions.

The core does five things:

- It turns the snapshot and the buffer into three diff tables. New rows are
  projected onto the snapshot's columns. Edited rows become an `"old"`/`"new"`
  pair tagged in a `"state"` column. Deleted rows are copied by position.
- It keeps the snapshot and the buffer in session dictionaries under
  versioned keys. Rotating a key makes the widget drop its buffer.
- It chooses what is sent to the backend. That is the `"new"` rows without
  the state column, and the ids of deleted rows.
- It wraps backend answers so that each holds exactly one of a table and an
  error message, and shortens the message before the URL.
- It converts the super-hero awards field between a comma-separated string
  and a list.

Modules, one per source file, plus shared vocabulary:

| module | file | models |
|---|---|---|
| `Wrappers` | wrappers.dfy | `Option`, `Result`, `Outcome` and the Python exceptions the core raises |
| `Strings` | strings.dfy | `str.strip`, `str.find`, `str.split`, `str.join` and decimal rendering, each with its round-trip lemmas |
| `Frames` | frames.dfy | rows as `map<string, Value>`, tables, projection onto columns, `iloc` by position |
| `Diff` | diff.dfy | the three diff tables, shared by core/update_calculator.py and the two earlier versions |
| `DiffExample` | diff_example.dfy | the worked example of the calculator's unit tests |
| `EditorMeta` | editor_meta_data.dfy | operations, metadata table, the widget buffer, the versioned key format (model, kind and stamp joined by vertical bars) |
| `Session` | session_state.dfy | the session state and the dictionaries it shares by reference |
| `ModelStore` | model_session_data.dfy | `ModelSessionData` |
| `UpdateCalculator` | update_calculator.dfy | `calculate_update` |
| `Manager` | session_data_mgr.dfy | `SessionDataMgr` and its class-level instance slot |
| `EditorSession` | session_data.dfy | `SessionData`, the editor-version counter and the buffer readers |
| `Persistence` | persistence.dfy | payload selection of `persist` |
| `Response` | response_data.dfy | `ResponseData` |
| `SuperHero` | super_hero_request_handler.dfy | the awards wire transform and the post/put/get delegation |

There are three versions of `_get_edited_rows`: core/update_calculator.py,
update_calculator.py and update_handler.py. They differ only in one respect:
the two calculators drop an edit whose merged row equals the original, and
the handler keeps it. One method, `Diff.EditedRows`, covers all three. Its
flag `suppressNoOps` is true for the calculators and false for the handler.

The model follows the shape of each source file:

- The objects whose dictionaries are updated in place are classes with
  `map` fields and `modifies` clauses. These are `ModelSessionData`,
  `SessionDataMgr`, the session state and a model's nested store.
- The loops that build the diff and rewrite the heroes' awards are methods
  with loop invariants. Each one is proved equal to a specification
  function.
- The expression-only parts are functions, and lemmas state their
  properties.

Python errors the source can raise on reachable inputs are values of
`PyError`:

- `IndexError` from `iloc`;
- `KeyError` from dictionary access and from `reset_data_editor`;
- `TypeError` and `AttributeError` from the awards transform and from
  calling a method on `None`;
- `ValueError` from `ResponseData`.

## Model

| member | source | states |
|---|---|---|
| Frames.ProjectAll | core/update_calculator.py:36 | one output row per input row, in order, each restricted to the given columns with missing columns null |
| Frames.Take | core/update_calculator.py:41 | row i of the result is the row at position i of the index list |
| Diff.Positions | core/update_calculator.py:19 | the edited positions, in the buffer's key order |
| Diff.Changed | core/update_calculator.py:27 | the effective edits: only buffer edits, every one changes its row, every changing edit kept, positions stay in range |
| Diff.EditedFrame | core/update_calculator.py:16-32 | IndexError exactly when an edited position is outside the snapshot; otherwise the columns are the snapshot's followed by "state" |
| Diff.EditedRows | core/update_calculator.py:16-32 | the loop builds exactly `EditedFrame`: invariant `diff == Pairs(records, edits[..i])`; `suppressNoOps` true is this calculator and the earlier update_calculator.py, false is update_handler.py |
| Diff.NoOpIffChangesAgree | core/update_calculator.py:25-27 | an edit is suppressed iff every changed field already holds its new value |
| Diff.MergeOverwrites | core/update_calculator.py:25-26 | the merged row has the edited value of every changed field and the original value of every other field, the id included |
| Diff.PairsAppend | core/update_calculator.py:23-29 | pairs come out in buffer order: the pairs of a concatenated buffer are the concatenated pairs |
| Diff.UnsuppressedLayout | update_handler.py:21-26 | without suppression the output has 2 × (number of edits) rows, original tagged "old" at 2k and merged tagged "new" at 2k+1 |
| Diff.SuppressionFiltersNoOps | core/update_calculator.py:27-29 | with suppression the output is the unsuppressed output of the effective edits only |
| Diff.SuppressedLayout | core/update_calculator.py:23-29 | with suppression the output has 2 × (number of effective edits) rows, "old" then "new" for each, in buffer order (the same in the earlier update_calculator.py) |
| Diff.ChangedAppend | core/update_calculator.py:23 | filtering the effective edits keeps buffer order |
| Diff.NoPairsIffNoChange | core/update_calculator.py:27 | the edited table is empty iff no edit changes its row |
| Diff.DisplayedPair | core/update_calculator.py:28-32 | on the displayed columns the new row holds the edited values and the old row's values elsewhere, and "state" reads old/new |
| Diff.NewRows | core/update_calculator.py:34-36 | one row per added row, in order, with the snapshot's columns; given fields kept (the same in the earlier versions) |
| Diff.NewRowsOfCompleteRows | core/update_calculator.py:34-36 | added rows that have exactly the snapshot's columns come out unchanged |
| Diff.DeletedRows | core/update_calculator.py:38-41 | IndexError iff a position is out of range; otherwise row i is the snapshot row at deleted[i], verbatim, duplicates kept (the same in the earlier versions) |
| Diff.DeletedRowsFromSnapshot | core/update_calculator.py:41 | every deleted row is a snapshot row |
| DiffExample.EditedRowsExample | tests/test_core/test_update_calculator.py:33-36 | snapshot [{A:1,B:2},{A:3,B:4}] with edits {0:{A:10,B:5}, 1:{B:20}} gives exactly the four old/new rows the unit test expects |
| DiffExample.NoOpEditExample | update_handler.py:21-26 | an edit writing back the current value gives no rows in the calculators and one pair in the handler |
| EditorMeta.EditorMetadataMap | core/editor_meta_data.py:22-27 | exactly the three operations, each mapped to itself, with the widget keys "added_rows", "edited_rows" and "deleted_rows" and an empty default of its own shape |
| EditorMeta.EditorField | core/model_session_data.py:52-59 | the operation's field of the buffer, or its empty default when there is no buffer or no such field |
| EditorMeta.KeyMap | core/editor_meta_data.py:29-31 | one key per kind, each a fresh model/kind/stamp key, pairwise distinct |
| EditorMeta.NewKeySplit | core/editor_meta_data.py:33-35 | splitting a key on the vertical bar gives back the model, the kind and the stamp when the model name has none |
| EditorMeta.KindTagInjective | core/editor_meta_data.py:33-35 | the part of a key after the model name determines both the kind and the stamp |
| EditorMeta.NewKeyInjective | core/editor_meta_data.py:33-35 | keys for different kinds or different stamps never collide, so successive keys differ |
| EditorMeta.NewKeyIsNotModel | core/editor_meta_data.py:35 | a key never equals the model name, the slot of the model's own dictionary |
| ModelStore.ModelSessionData.constructor | core/model_session_data.py:24-34 | fresh key map, empty own dictionary linked into the session state under the model name, nothing stored |
| ModelStore.ModelSessionData.GetData | core/model_session_data.py:39-40 | the frame the model's own dictionary holds under the key `get_key` reports, linked or not, or none when that key is missing; while linked, the same frame `session_state[model]` shows |
| ModelStore.ModelSessionData.UpdateData | core/model_session_data.py:36-40 | after the update `get_data` returns the value, also through `session_state[model]`; a later update overwrites it |
| ModelStore.RotateKey | core/model_session_data.py:42-47 | a key made with a later stamp differs from all three current keys, and replacing one kind's key keeps every key derived from its model, kind and stamp with the stored data under current keys only |
| ModelStore.ModelSessionData.ChangeKey | core/model_session_data.py:42-47 | drops the old key's data, returns a key never used before, installs it for that kind only, session state untouched |
| ModelStore.ModelSessionData.GetKey | core/model_session_data.py:49-50 | the first two vertical-bar fields of the key are the model and the kind; the key is not the model name |
| ModelStore.ModelSessionData.GetEditorData | core/model_session_data.py:52-59 | the buffer field under the EditorData key, or the operation's empty default when no buffer exists |
| ModelStore.ModelSessionData.ClearData | core/model_session_data.py:61-72 | TableData drops only the snapshot; EditorData drops only the widget buffer (all defaults then); none or AuditData empties both dictionaries |
| UpdateCalculator.Calculate | core/update_calculator.py:43-47 | exactly the keys New/Edited/Deleted holding the three diff tables; IndexError iff an edited or deleted position is out of range |
| UpdateCalculator.CalculateUpdate | core/update_calculator.py:43-47 | reads the three buffer fields through the store; with no buffer, three empty tables |
| Manager.MgrKeyMap | core/session_data_mgr.py:27 | one key per kind, pairwise distinct |
| Manager.MgrKeyInjective | core/session_data_mgr.py:52 | keys for different kinds or stamps never collide |
| Manager.Registry.ResetInstance | core/session_data_mgr.py:61-63 | the instance slot is emptied |
| Manager.SessionDataMgr.constructor | core/session_data_mgr.py:22-34 | the first construction initialises and registers itself, and `get_data` finds nothing for any kind when the given dictionary holds no key of the new stamp; a construction while one is registered changes nothing |
| Manager.SessionDataMgr.GetData | core/session_data_mgr.py:47-48 | the entry under the key `get_key` reports, or none when that key is missing; for the editor kind, `get_editor_data` succeeds exactly when the entry is an edit buffer |
| Manager.SessionDataMgr.ClearData | core/session_data_mgr.py:36-42 | a kind drops that kind's entry only; no kind drops every key-map entry and leaves other entries untouched |
| Manager.SessionDataMgr.UpdateData | core/session_data_mgr.py:44-48 | after the update `get_data` returns the value; only that entry changes |
| Manager.SessionDataMgr.ChangeKey | core/session_data_mgr.py:50-52 | drops the old key's data and installs, for that kind only, a key different from every current key |
| Manager.SessionDataMgr.GetKey | core/session_data_mgr.py:54-55 | the key starts with the kind's name and '_' |
| Manager.SessionDataMgr.GetEditorData | core/session_data_mgr.py:57-59 | AttributeError iff there is no buffer; otherwise the field or its default |
| Manager.GetInstance | core/session_data_mgr.py:65-74 | non-empty session data always yields a fresh registered manager over it; otherwise the registered one, or a new one over the application's session state |
| EditorSession.DataEditorKey | core/session_data.py:27 | `data_editor_key_version_` followed by the version's digits |
| EditorSession.KeyVersionRoundTrip | core/session_data.py:27 | the version is read back from the key |
| EditorSession.DataEditorKeyInjective | core/session_data.py:27 | different versions give different widget keys |
| EditorSession.ResetKeyIsNotAWidgetKey | core/session_data.py:15 | a widget key never names the counter's slot |
| EditorSession.GetDataEditorKey | core/session_data.py:21-27 | the first call creates the counter at 0 (key `..._0`); an existing counter is never changed, so repeated calls agree |
| EditorSession.ResetDataEditor | core/session_data.py:29-35 | KeyError with its message when the counter is missing; otherwise +1 exactly, and the new key differs from every earlier one |
| EditorSession.CurrentBuffer | core/session_data.py:17-19 | the buffer under the current widget key, or none |
| EditorSession.GetEditData | core/session_data.py:37-39 | the buffer's edited rows, or empty; the session state changes only by a missing counter created at 0 |
| EditorSession.GetNewData | core/session_data.py:41-43 | the buffer's added rows, or empty; the session state changes only by a missing counter created at 0 |
| EditorSession.GetDeletedData | core/session_data.py:45-47 | the buffer's deleted positions, or empty; the session state changes only by a missing counter created at 0 |
| Persistence.KeepNew | core/persistence.py:36 | never more rows than given; empty iff no row is tagged "new" |
| Persistence.KeepNewMembers | core/persistence.py:36 | a row is kept iff it is one of the given rows and is tagged "new" |
| Persistence.KeepNewAppend | core/persistence.py:36 | the filter keeps row order |
| Persistence.DropState | core/persistence.py:38 | same number of rows, each without the state column and with every other field and its value kept; new rows, not updated in place |
| Persistence.PersistNewOrEdited | core/persistence.py:30-45 | none for an absent or empty table or when filtering leaves nothing; without a state column the rows as given; with one, exactly the "new"-tagged rows in order with the state column dropped |
| Persistence.Ids | core/persistence.py:52 | the id of each row, in row order |
| Persistence.PersistDeleted | core/persistence.py:47-55 | none iff the table is absent or empty; otherwise a delete of the rows' ids in row order |
| Persistence.Persist | core/persistence.py:25-28 | exactly the keys New/Edited/Deleted, each computed by its own operation |
| Persistence.PersistIndependent | core/persistence.py:25-28 | an operation's result depends on its own table only |
| Persistence.NewPayloadIsAddedRows | core/persistence.py:30-45 | the added rows are posted as projected, or nothing when there are none |
| Persistence.NewSidesOfPairs | core/persistence.py:35-38 | filtering the pairs to "new" and dropping "state" leaves the merged rows, in order |
| Persistence.EditedPayloadIsNewSide | core/persistence.py:30-45 | the posted edited payload is the merged row of each effective edit, in buffer order; nothing when no edit changes anything |
| Persistence.DeletedPayloadIsIds | core/persistence.py:47-55 | the delete payload is the id of the snapshot row at each deleted position, in order |
| Response.MakeResponse | core/response_data.py:10-19 | success iff exactly one of a non-empty table and a non-empty message is given, with the two ValueError messages; message stored stripped |
| Response.IsStatusOk | core/response_data.py:51-53 | true exactly for HTTP status 200 |
| Response.IsValid | core/response_data.py:28-29 | true exactly for status 200 with a table of at least one row |
| Response.ErrorMsgFull | core/response_data.py:43-45 | present exactly when `error_msg` can be read, and never shorter than it |
| Response.Df | core/response_data.py:21-26 | the table when no message is stored, otherwise ValueError carrying the message |
| Response.ErrorMsg | core/response_data.py:31-41 | AttributeError iff no message is stored |
| Response.ErrorMsgIsCleanPrefix | core/response_data.py:37-41 | the short message is a stripped prefix of the full one and never contains "for url: "; when the marker occurs it is all the text before the first marker less only trailing whitespace |
| Response.ErrorMsgWithoutUrl | core/response_data.py:40-45 | without "for url: " the short message is the full one |
| Response.BuiltResponses | core/response_data.py:28-29 | every built response is well formed, and a valid one (status 200, non-empty table) yields its table |
| Response.WhitespaceMessageGivesNeither | core/response_data.py:11-19 | any non-empty whitespace-only message with no table passes the constructor, is stored as "", and leaves a response whose df returns no table and raises no error |
| Response.MakeResponseChecked | core/response_data.py:11-19 | the constructor with its check made on the stripped message: success iff exactly one of table and stripped message |
| Response.CheckedResponsesHoldExactlyOne | core/response_data.py:11-26 | every checked response holds exactly one of a table and a non-empty error, and df raises iff it holds the error |
| SuperHero.SplitAwards | impl/super_hero_request_handler.py:18 | commas + 1 pieces, never empty, each stripped and comma-free |
| SuperHero.OutgoingHero | impl/super_hero_request_handler.py:17-18 | awards replaced by its split pieces, every other field unchanged; KeyError/AttributeError/TypeError on bad heroes |
| SuperHero.OutgoingItems | impl/super_hero_request_handler.py:17-18 | hero count and order kept, each hero transformed |
| SuperHero.OutgoingWalk | impl/super_hero_request_handler.py:17-18 | the in-place loop gives exactly `OutgoingItems` |
| SuperHero.ForOutgoingRequest | impl/super_hero_request_handler.py:14-20 | the method gives exactly the outgoing transform of the document |
| SuperHero.OutgoingNotRepeatable | impl/super_hero_request_handler.py:18 | the transform cannot be applied twice: its output's awards are lists |
| SuperHero.JoinAwards | impl/super_hero_request_handler.py:26 | a list joins iff all its items are strings, giving them comma-joined; a string always joins, giving its characters with a comma between each two; every failure is TypeError |
| SuperHero.IncomingHero | impl/super_hero_request_handler.py:25-26 | TypeError for a non-object, KeyError without awards; otherwise succeeds exactly when the awards can be joined (TypeError when not), with awards joined with ',' and every other field unchanged |
| Strings.JoinChars | impl/super_hero_request_handler.py:26 | joining a string's characters gives twice its length less one characters, the string's characters at even positions and the separator between them |
| SuperHero.IncomingItems | impl/super_hero_request_handler.py:25-26 | hero count and order kept, each hero transformed |
| SuperHero.IncomingWalk | impl/super_hero_request_handler.py:25-26 | the in-place loop gives exactly `IncomingItems` |
| SuperHero.ForIncomingResponse | impl/super_hero_request_handler.py:22-28 | the method gives exactly the incoming transform of the document |
| SuperHero.SplitAwardsOfTrimmed | impl/super_hero_request_handler.py:18 | pieces already trimmed are kept as split |
| SuperHero.JoinOfSplitAwards | impl/super_hero_request_handler.py:18-26 | joining the split award list of a string whose comma-separated pieces are trimmed gives back that string |
| SuperHero.SplitOfJoinedAwards | impl/super_hero_request_handler.py:18-26 | splitting the comma-join of trimmed, comma-free awards gives back those awards |
| SuperHero.IncomingAfterOutgoing | impl/super_hero_request_handler.py:18-26 | joining the split awards gives back the original hero when its pieces are trimmed |
| SuperHero.OutgoingAfterIncoming | impl/super_hero_request_handler.py:18-26 | incoming then outgoing gives back the hero itself when its awards are a non-empty list of trimmed, comma-free strings |
| SuperHero.HandleGet | impl/super_hero_request_handler.py:40-42 | a get is passed on untransformed |
| SuperHero.HandlePost | impl/super_hero_request_handler.py:44-46 | the outgoing transform once, then the generic post; its error otherwise |
| SuperHero.HandlePut | impl/super_hero_request_handler.py:48-50 | the outgoing transform once, then the generic put; its error otherwise |

## Left out

- The Streamlit UI and orchestration are not modelled. That covers
  core/update_handler.py, the render methods of update_handler.py:39-60,
  the pages and app.py. None of them holds reconciliation logic.
- The HTTP exchange is not modelled. That covers base/request_handler.py,
  the request calls of core/persistence.py:42-45 and 52-55, and
  `_extract_response_data`. A persistence result is the request that would
  be issued, and the backend's answer is not part of the model.
  `Persistence.get_data` and `SessionData.get_data` read the backend and
  are left out for the same reason.
- JSON text encoding and decoding are not modelled. The super-hero
  transform works on decoded documents (`SuperHero.Json`).
- The pydantic model list is not modelled. `from_df` and
  `model_dump_json` are taken as passing the rows through unchanged, so a
  post's payload is the rows. `get_ids` is the id field of each row, read
  as null when the row lacks it.
- Configuration, dynamic class loading and core/singleton.py are not
  modelled; they do file reads and reflection only.
- The prototype `calculate_update` (update_calculator.py:39-42) is not
  modelled: it keys its result by `State.Edited` and `State.Deleted`,
  which enums.py does not define.
- `datetime.now()` is not modelled. Each key-making operation takes a
  `stamp: nat`, and a rotation requires a stamp larger than every earlier
  one. The source reads the clock once per kind when it builds a key map.
  The model uses one stamp for all kinds, which changes no property
  because the kind names already keep the keys apart.
- Enum rendering is an assumption. `ModelSessionDataEnum` and
  `SessionDataEnum` are not part of this model. Both are the enum `Kind`
  with members TableData, EditorData and AuditData. A member's text in a
  key is its name.
- Only an edit buffer is read as a buffer. A session-state entry of any
  other kind under an editor key reads as no buffer.
- Frame values are abstract (`Null`, `Num`, `Text`). Floats, NaN filling
  and dtype conversion by pandas are not modelled.
- Negative `iloc` positions are not modelled: positions are natural
  numbers, and a position beyond the table raises IndexError.
- The edit buffer is a sequence of position/changes entries in the
  dictionary's order. Two entries for the same position cannot occur in
  the widget's dictionary, and the model does not exclude them.
- Deleted positions are not deduplicated, since core/update_calculator.py:41
  keeps duplicates.
- ModelStore.ModelSessionData.ChangeKey, ModelStore.ModelSessionData.ClearData
  and the other `ModelSessionData` members require the store's invariant
  `Valid()`, which the constructor establishes and every method keeps.
- Manager.SessionDataMgr.ClearData, Manager.SessionDataMgr.UpdateData,
  Manager.SessionDataMgr.ChangeKey, Manager.SessionDataMgr.GetKey,
  Manager.SessionDataMgr.GetData and Manager.SessionDataMgr.GetEditorData
  require an initialised manager. The
  AttributeError of calling them on an object built while another was
  registered, which has no `session_data`, is not modelled.
- EditorSession.GetDataEditorKey, EditorSession.ResetDataEditor and the
  readers require the counter slot, when present, to hold a counter. A
  non-integer there is not modelled.
- SuperHero.JoinAwards: joining a non-empty dictionary is modelled as
  TypeError. Python would join the dictionary's keys when they are
  strings.

## Findings

| source | as written | input that shows it | evidently intended | confidence | as-written member | corrected member |
|---|---|---|---|---|---|---|
| core/response_data.py:11-19 | the "neither" check tests the message before stripping, then the message is stored stripped | `ResponseData(500, df=None, error_msg="   ")` is accepted, stores `""`, and `df` returns None: neither a table nor an error | the check applies to the stripped message, so every response holds exactly one of a table and an error | not executed | Response.WhitespaceMessageGivesNeither | Response.MakeResponseChecked |
