/**
 * The row cursor as a value: the last fetched row, the rows not yet fetched,
 * and the null flag of the last column read.
 */
module CursorModel {
  import opened Wrappers
  import opened ResultSetTypes

  datatype Cursor = Cursor(current: Option<Row>, rest: seq<Row>, wasNull: bool)

  /** A fresh cursor; absent rows (Java null) mean no rows at all. */
  function Init(rows: Option<seq<Row>>): Cursor {
    Cursor(None, if rows.Some? then rows.value else [], false)
  }

  /** next(): fetch one row if there is one; the null flag is untouched. */
  function Advance(s: Cursor): (bool, Cursor) {
    if s.rest == [] then (false, s)
    else (true, s.(current := Some(s.rest[0]), rest := s.rest[1..]))
  }

  /** isLast(): look ahead — true exactly when no row remains. */
  function IsLastRow(s: Cursor): bool {
    s.rest == []
  }

  /** The results of k consecutive next() calls, and the cursor after them. */
  function AdvanceTimes(s: Cursor, k: nat): (seq<bool>, Cursor)
    decreases k
  {
    if k == 0 then ([], s)
    else
      var (b, t) := Advance(s);
      var (bs, u) := AdvanceTimes(t, k - 1);
      ([b] + bs, u)
  }

  /** The cell at 1-based column col of the current row. */
  function CellAt(s: Cursor, col: int): Result<Cell, Error> {
    match s.current
    case None => Err(NotPositioned)
    case Some(row) => if 1 <= col <= |row| then Ok(row[col - 1]) else Err(IndexOutOfRange)
  }

  /** Reading a cell with setWasNull: the flag becomes "the cell is null", nothing else changes. */
  function ReadCell(s: Cursor, col: int): (r: (Result<Cell, Error>, Cursor))
    ensures r.1.current == s.current && r.1.rest == s.rest
    ensures r.0.Ok? ==> r.1.wasNull == r.0.value.Null?
    ensures r.0.Err? ==> r.1 == s
    ensures r.0.Ok? <==> s.current.Some? && 1 <= col <= |s.current.value|
    ensures r.0.Ok? ==> r.0.value == s.current.value[col - 1]
  {
    match CellAt(s, col)
    case Err(e) => (Err(e), s)
    case Ok(cell) => (Ok(cell), s.(wasNull := cell.Null?))
  }

  /**
   * k calls of next() on a cursor with m remaining rows: the i-th succeeds exactly
   * when i < m; afterwards min(k, m) rows are consumed, the last of them is the
   * current row, and the null flag is as before.
   */
  lemma {:induction false} AdvanceTimesCounts(s: Cursor, k: nat)
    ensures var (bs, t) := AdvanceTimes(s, k);
      var m := if k < |s.rest| then k else |s.rest|;
      && |bs| == k
      && (forall i | 0 <= i < k :: bs[i] == (i < |s.rest|))
      && t.rest == s.rest[m..]
      && t.current == (if m == 0 then s.current else Some(s.rest[m - 1]))
      && t.wasNull == s.wasNull
    decreases k
  {
    if k > 0 {
      var (b, t) := Advance(s);
      AdvanceTimesCounts(t, k - 1);
      if s.rest != [] {
        assert t.rest == s.rest[1..];
      }
    }
  }

  /** With N rows, exactly the first N calls of next() return true, and call N + 1 returns false. */
  lemma ExactlyAsManyAdvancesAsRows(rows: seq<Row>)
    ensures AdvanceTimes(Init(Some(rows)), |rows| + 1).0 == seq(|rows|, _ => true) + [false]
  {
    AdvanceTimesCounts(Init(Some(rows)), |rows| + 1);
  }

  /**
   * After k calls of next() on N rows, isLast() holds exactly when k >= N, and the
   * current row is row k (1-based) once k >= 1, or the last row when k > N.
   */
  lemma IsLastAfterAdvances(rows: seq<Row>, k: nat)
    ensures IsLastRow(AdvanceTimes(Init(Some(rows)), k).1) <==> k >= |rows|
    ensures 0 < k <= |rows| ==> AdvanceTimes(Init(Some(rows)), k).1.current == Some(rows[k - 1])
    ensures k > |rows| > 0 ==> AdvanceTimes(Init(Some(rows)), k).1.current == Some(rows[|rows| - 1])
  {
    AdvanceTimesCounts(Init(Some(rows)), k);
  }

  /** next() on any cursor fails exactly when no row remains, and never touches the null flag. */
  lemma AdvanceSucceedsIffRowsRemain(s: Cursor)
    ensures Advance(s).0 <==> !IsLastRow(s)
    ensures Advance(s).1.wasNull == s.wasNull
    ensures !Advance(s).0 ==> Advance(s).1 == s
  {
  }

  /** Absent rows behave exactly like an empty array: next() is false, isLast() is true. */
  lemma AbsentRowsAreEmpty()
    ensures Init(None) == Init(Some([]))
    ensures Advance(Init(None)) == (false, Init(None))
    ensures IsLastRow(Init(None))
    ensures !Init(None).wasNull && Init(None).current == None
  {
  }
}
