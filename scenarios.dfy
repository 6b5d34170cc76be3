/** Call sequences on a mock cursor, checked from the class contracts alone. */
module Scenarios {
  import opened Wrappers
  import opened JavaText
  import opened ResultSetTypes
  import opened CursorModel
  import opened MockResultSet

  const Columns: seq<string> := ["ID", "NAME"]
  const Alice: Row := [Val("1"), Val("Alice")]
  const Bob: Row := [Val("2"), Val("Bob")]
  const NullId: Row := [Null, Val("X")]

  /** Columns ID and NAME, rows (1, Alice) and (2, Bob). */
  method TwoRows() {
    var rs := new MockResultSet(Columns, Some([Alice, Bob]));
    var last := rs.IsLast();
    assert !last;
    var more := rs.Next();
    assert more && rs.Model() == Cursor(Some(Alice), [Bob], false);
    FirstRowByName(rs);
    SecondRow(rs);
    BadReferences(rs);
  }

  /** Names resolve ignoring case; the values are parsed. */
  method FirstRowByName(rs: MockResultSet)
    requires rs.metaData == Columns && rs.Model() == Cursor(Some(Alice), [Bob], false)
    modifies rs
    ensures rs.Valid() == old(rs.Valid())
    ensures rs.Model() == Cursor(Some(Alice), [Bob], false)
  {
    assert EqualsIgnoreCase("ID", "id");
    var c := rs.ColumnIndex([StringArg("id")]);
    assert c == Ok(1);
    var r := rs.GetInt(1);
    assert DigitsValue("1") == 1;
    assert r == Ok(IntegerV(1));
    assert EqualsIgnoreCase("NAME", "NAME");
    c := rs.ColumnIndex([StringArg("NAME")]);
    assert c == Ok(2);
    r := rs.GetString(2);
    assert r == Ok(StringV(Some("Alice")));
    assert rs.Model() == Cursor(Some(Alice), [Bob], false);
  }

  /** The second row by position, then the end of the rows. */
  method SecondRow(rs: MockResultSet)
    requires rs.Valid() && rs.Model() == Cursor(Some(Alice), [Bob], false)
    modifies rs
    ensures rs.Model() == Cursor(Some(Bob), [], false)
  {
    var wasNull := rs.WasNull();
    assert !wasNull;
    var more := rs.Next();
    assert more && rs.Model() == Cursor(Some(Bob), [], false);
    var r := rs.GetInt(1);
    assert DigitsValue("2") == 2;
    assert r == Ok(IntegerV(2));
    var last := rs.IsLast();
    assert last;
    more := rs.Next();
    assert !more;
  }

  /** Column references that do not resolve. */
  method BadReferences(rs: MockResultSet)
    requires rs.metaData == Columns && rs.currentRow == Some(Bob)
  {
    var c := rs.ColumnIndex([StringArg("AGE")]);
    assert c == Err(ColumnNotFound);
    c := rs.ColumnIndex([NullArg]);
    assert c == Err(InvalidArgumentType);
    c := rs.ColumnIndex([]);
    assert c == Err(MissingArgument);
  }

  /** A row whose ID is null. */
  method NullCell() {
    var rs := new MockResultSet(Columns, Some([NullId]));
    var r := rs.GetInt(1);
    assert r == Err(NotPositioned);
    var more := rs.Next();
    assert more && rs.Model() == Cursor(Some(NullId), [], false);
    NullReads(rs);
    FlagFollowsLastRead(rs);
  }

  /** Zero and null results for the null cell, with the flag set. */
  method NullReads(rs: MockResultSet)
    requires rs.Model().current == Some(NullId)
    modifies rs
    ensures rs.Model().current == Some(NullId)
  {
    var r := rs.GetInt(1);
    assert r == Ok(IntegerV(0));
    var wasNull := rs.WasNull();
    assert wasNull;
    r := rs.GetString(1);
    assert r == Ok(StringV(None));
    r := rs.GetBoolean(1);
    assert r == Ok(BooleanV(false));
  }

  /** The flag follows the last read, also when its coercion fails. */
  method FlagFollowsLastRead(rs: MockResultSet)
    requires rs.Model().current == Some(NullId)
    modifies rs
  {
    var r := rs.GetString(2);
    assert r == Ok(StringV(Some("X")));
    var wasNull := rs.WasNull();
    assert !wasNull;
    r := rs.GetInt(1);
    r := rs.GetInt(2);
    assert r == Err(Coercion);
    wasNull := rs.WasNull();
    assert !wasNull;
    var o := rs.GetObject(3);
    assert o == Err(IndexOutOfRange);
  }
}
