/**
 * streamlit.session_state and the dictionaries hung under it. Python shares
 * these dictionaries by reference, so they are objects here: a store linked
 * into the session state is the same object as the store its owner updates.
 */
module Session {
  import opened Wrappers
  import opened Frames
  import opened EditorMeta

  /** A model's own dictionary of frames, keyed by session key. */
  class Store {
    var items: map<string, Frame>

    constructor ()
      ensures items == map[]
    {
      items := map[];
    }
  }

  /** What one slot of the session state can hold. */
  datatype Entry =
    | Nested(store: Store)          // a model's dictionary, linked by reference
    | Editor(buffer: EditorBuffer)  // a grid widget's edit buffer, written by the widget
    | Counter(n: nat)               // the editor version counter
    | Table(frame: Frame)           // a frame stored directly in the session

  /** The per-user session dictionary shared by every component. */
  class SessionState {
    var entries: map<string, Entry>

    constructor (entries: map<string, Entry>)
      ensures this.entries == entries
    {
      this.entries := entries;
    }
  }

  /** The session entry under a key read as an edit buffer; a missing key or any other kind of entry reads as absent. */
  function BufferAt(entries: map<string, Entry>, key: string): Option<EditorBuffer> {
    if key in entries && entries[key].Editor? then Some(entries[key].buffer) else None
  }
}
