/** Turning the first argument of a get* call into a 1-based column index. */
module ColumnResolution {
  import opened Wrappers
  import opened JavaText
  import opened ResultSetTypes

  /**
   * columnNameToIndex from loop position i on: the first column i + 1, ..., |row|
   * whose metadata name equals name ignoring case.
   */
  function FindColumnFrom(meta: seq<string>, row: Row, name: string, i: nat): (r: Result<int, Error>)
    requires i <= |row|
    ensures r.Ok? || r == Err(ColumnNotFound) || r == Err(MetaDataFailure)
    ensures r.Ok? ==>
      && i < r.value <= |row| && r.value <= |meta|
      && EqualsIgnoreCase(meta[r.value - 1], name)
      && forall j | i <= j < r.value - 1 :: !EqualsIgnoreCase(meta[j], name)
    ensures r == Err(ColumnNotFound) <==>
      && (|row| <= |meta| || i == |row|)
      && forall j | i <= j < |row| :: !EqualsIgnoreCase(meta[j], name)
    ensures r == Err(MetaDataFailure) <==>
      && |meta| < |row| && i < |row|
      && forall j | i <= j < |meta| :: !EqualsIgnoreCase(meta[j], name)
    decreases |row| - i
  {
    if i == |row| then Err(ColumnNotFound)
    else if i >= |meta| then Err(MetaDataFailure)
    else if EqualsIgnoreCase(meta[i], name) then Ok(i + 1)
    else FindColumnFrom(meta, row, name, i + 1)
  }

  /** columnNameToIndex on the current row; no current row is a NullPointerException. */
  function FindColumn(meta: seq<string>, current: Option<Row>, name: string): Result<int, Error> {
    match current
    case None => Err(NotPositioned)
    case Some(row) => FindColumnFrom(meta, row, name, 0)
  }

  /** columnIndex: an Integer is used as it is, a String is looked up by name. */
  function ColumnIndex(meta: seq<string>, current: Option<Row>, args: seq<Arg>): Result<int, Error> {
    if |args| == 0 then Err(MissingArgument)
    else match args[0]
      case IntegerArg(i) => Ok(i as int)
      case StringArg(name) => FindColumn(meta, current, name)
      case _ => Err(InvalidArgumentType)
  }

  /**
   * When the metadata names every column of the row, a name lookup succeeds
   * exactly when some column of the row matches ignoring case, with the smallest
   * such 1-based column, and otherwise fails with ColumnNotFound.
   */
  lemma FindColumnIsFirstMatch(meta: seq<string>, row: Row, name: string)
    requires |row| <= |meta|
    ensures var r := FindColumn(meta, Some(row), name);
      && (r.Ok? || r == Err(ColumnNotFound))
      && (r.Ok? <==> exists j | 0 <= j < |row| :: EqualsIgnoreCase(meta[j], name))
      && (r.Ok? ==>
            && 1 <= r.value <= |row|
            && EqualsIgnoreCase(meta[r.value - 1], name)
            && forall j | 0 <= j < r.value - 1 :: !EqualsIgnoreCase(meta[j], name))
  {
    var r := FindColumnFrom(meta, row, name, 0);
    if r.Ok? {
      assert EqualsIgnoreCase(meta[r.value - 1], name);
    }
  }

  /** Names that are equal ignoring case resolve to the same column (or the same error). */
  lemma {:induction false} FindColumnFromIgnoresCase(meta: seq<string>, row: Row, a: string, b: string, i: nat)
    requires i <= |row|
    requires EqualsIgnoreCase(a, b)
    ensures FindColumnFrom(meta, row, a, i) == FindColumnFrom(meta, row, b, i)
    decreases |row| - i
  {
    if i < |row| && i < |meta| {
      EqualsIgnoreCaseIsEquivalence(meta[i], a, b);
      EqualsIgnoreCaseIsEquivalence(meta[i], b, a);
      EqualsIgnoreCaseIsEquivalence(a, b, a);
      FindColumnFromIgnoresCase(meta, row, a, b, i + 1);
    }
  }

  lemma ColumnIndexIgnoresCase(meta: seq<string>, current: Option<Row>, a: string, b: string)
    requires EqualsIgnoreCase(a, b)
    ensures ColumnIndex(meta, current, [StringArg(a)]) == ColumnIndex(meta, current, [StringArg(b)])
  {
    if current.Some? {
      FindColumnFromIgnoresCase(meta, current.value, a, b, 0);
    }
  }

  /**
   * An Integer argument is passed through unchanged; a resolved String lies within
   * the current row; any other first argument is InvalidArgumentType.
   */
  lemma ColumnIndexCases(meta: seq<string>, current: Option<Row>, args: seq<Arg>)
    requires |args| > 0
    ensures args[0].IntegerArg? ==> ColumnIndex(meta, current, args) == Ok(args[0].i as int)
    ensures args[0].StringArg? && ColumnIndex(meta, current, args).Ok? ==>
      current.Some? && 1 <= ColumnIndex(meta, current, args).value <= |current.value|
    ensures args[0].NullArg? || args[0].ObjectArg? ==>
      ColumnIndex(meta, current, args) == Err(InvalidArgumentType)
  {
  }
}
