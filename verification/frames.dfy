/**
 * Rows and tables as the grid editor sees them. A pandas DataFrame is a list
 * of column names and a list of rows; a row is a mapping from column name to
 * a field value. Field values are abstract: the model never inspects them
 * except for equality.
 */
module Frames {
  import opened Wrappers

  datatype Value = Null | Num(n: int) | Text(s: string)

  type Row = map<string, Value>

  datatype Frame = Frame(columns: seq<string>, rows: seq<Row>)

  /** One entry of the widget's "edited_rows" dictionary: position -> changed fields. */
  datatype Edit = Edit(position: nat, changes: Row)

  /** The column that tags the two rows of an edited pair (Util.STATE_STR). */
  const StateColumn: string := "state"
  const OldState: Value := Text("old")
  const NewState: Value := Text("new")

  /** A row as pandas stores it under the given columns: missing fields become null, extra fields are dropped. */
  function Project(row: Row, columns: seq<string>): Row {
    map c | c in columns :: if c in row then row[c] else Null
  }

  function ProjectAll(rows: seq<Row>, columns: seq<string>): (r: seq<Row>)
    ensures |r| == |rows|
    ensures forall i :: 0 <= i < |rows| ==> r[i] == Project(rows[i], columns)
  {
    seq(|rows|, i requires 0 <= i < |rows| => Project(rows[i], columns))
  }

  lemma ProjectAllAppend(a: seq<Row>, b: seq<Row>, columns: seq<string>)
    ensures ProjectAll(a + b, columns) == ProjectAll(a, columns) + ProjectAll(b, columns)
  {
  }

  function Tag(row: Row, state: Value): Row {
    row[StateColumn := state]
  }

  /** Util.is_none_or_empty_df: no frame, or a frame with zero rows. */
  predicate IsNoneOrEmpty(f: Option<Frame>) {
    f.None? || |f.value.rows| == 0
  }

  predicate PositionsInRange(positions: seq<nat>, n: nat) {
    forall i :: 0 <= i < |positions| ==> positions[i] < n
  }

  /** The rows at the given positions, in the order of the positions, repeats kept. */
  function Take(rows: seq<Row>, positions: seq<nat>): (r: seq<Row>)
    requires PositionsInRange(positions, |rows|)
    ensures |r| == |positions|
    ensures forall i :: 0 <= i < |positions| ==> r[i] == rows[positions[i]]
  {
    seq(|positions|, i requires 0 <= i < |positions| => rows[positions[i]])
  }
}
