/** The typed accessors: read one cell, set the null flag, coerce the cell's text. */
module Coercion {
  import opened Wrappers
  import opened JavaText
  import opened ResultSetTypes
  import opened CursorModel

  /** The accessors whose coercion the model computes. */
  datatype Accessor = Boolean | Byte | Short | Int | Long | Object | String {
    predicate IsIntegral() { Byte? || Short? || Int? || Long? }
  }

  /** getDouble and getFloat, whose parsing is left to the platform. */
  datatype FloatingAccessor = Double | Float

  function MinOf(a: Accessor): int
    requires a.IsIntegral()
  {
    match a
    case Byte => ByteMin
    case Short => ShortMin
    case Int => IntMin
    case Long => LongMin
  }

  function MaxOf(a: Accessor): int
    requires a.IsIntegral()
  {
    match a
    case Byte => ByteMax
    case Short => ShortMax
    case Int => IntMax
    case Long => LongMax
  }

  /** The boxed result of an integral accessor. */
  function IntegralValue(a: Accessor, i: int): Value
    requires a.IsIntegral()
  {
    match a
    case Byte => ByteV(i)
    case Short => ShortV(i)
    case Int => IntegerV(i)
    case Long => LongV(i)
  }

  /** What each accessor returns for a null cell. */
  function NullValue(a: Accessor): Value {
    match a
    case Boolean => BooleanV(false)
    case Object => ObjectV(Null)
    case String => StringV(None)
    case _ => IntegralValue(a, 0)
  }

  /** The coercion step of an accessor, after the cell is fetched and the flag set. */
  function Coerce(a: Accessor, cell: Cell): (r: Result<Value, Error>)
    ensures cell.Null? ==> r == Ok(NullValue(a))
    ensures r.Err? ==> r == Err(Coercion) && cell.Val? && a.IsIntegral()
    ensures a.IsIntegral() && cell.Val? ==>
      (r.Ok? <==> ParseDecimal(cell.text).Some? && MinOf(a) <= ParseDecimal(cell.text).value <= MaxOf(a))
    ensures a.IsIntegral() && cell.Val? && r.Ok? ==>
      r == Ok(IntegralValue(a, ParseDecimal(cell.text).value))
    ensures a == Boolean && cell.Val? ==> r == Ok(BooleanV(LowerCase(cell.text) == "true"))
    ensures a == String && cell.Val? ==> r == Ok(StringV(Some(cell.text)))
    ensures a == Object ==> r == Ok(ObjectV(cell))
  {
    match cell
    case Null => Ok(NullValue(a))
    case Val(text) =>
      match a
      case Boolean => Ok(BooleanV(ParseBoolean(text)))
      case Object => Ok(ObjectV(cell))
      case String => Ok(StringV(Some(text)))
      case _ =>
        match ParseIntegral(text, MinOf(a), MaxOf(a))
        case Some(v) => Ok(IntegralValue(a, v))
        case None => Err(Coercion)
  }

  /** The boxed result of a floating accessor. */
  function FloatingValue(a: FloatingAccessor, f: Floating): Value {
    match a
    case Double => DoubleV(f)
    case Float => FloatV(f)
  }

  /**
   * The coercion step of getDouble / getFloat; accepts says which texts
   * Double.valueOf / Float.valueOf parse.
   */
  function CoerceFloating(a: FloatingAccessor, cell: Cell, accepts: string -> bool): (r: Result<Value, Error>)
    ensures cell.Null? ==> r == Ok(FloatingValue(a, FloatZero))
    ensures cell.Val? ==> (r.Ok? <==> accepts(cell.text))
    ensures r.Err? ==> r == Err(Coercion)
    ensures cell.Val? && r.Ok? ==> r == Ok(FloatingValue(a, FloatOf(cell.text)))
  {
    match cell
    case Null => Ok(FloatingValue(a, FloatZero))
    case Val(text) => if accepts(text) then Ok(FloatingValue(a, FloatOf(text))) else Err(Coercion)
  }

  /** A whole accessor call on the cursor: fetch, set the flag, coerce. */
  function Read(s: Cursor, a: Accessor, col: int): (Result<Value, Error>, Cursor) {
    match ReadCell(s, col)
    case (Err(e), t) => (Err(e), t)
    case (Ok(cell), t) => (Coerce(a, cell), t)
  }

  function ReadFloating(s: Cursor, a: FloatingAccessor, col: int, accepts: string -> bool): (Result<Value, Error>, Cursor) {
    match ReadCell(s, col)
    case (Err(e), t) => (Err(e), t)
    case (Ok(cell), t) => (CoerceFloating(a, cell, accepts), t)
  }

  /**
   * An integral accessor reading the rendering of n returns n when n fits the
   * type and fails with a coercion error otherwise.
   */
  lemma IntegralAccessorReadsRendering(a: Accessor, n: int)
    requires a.IsIntegral()
    ensures Coerce(a, Val(DecimalText(n))) ==
      if MinOf(a) <= n <= MaxOf(a) then Ok(IntegralValue(a, n)) else Err(Coercion)
  {
    ParseDecimalText(n);
  }

  /**
   * Every accessor sets the flag to exactly "the cell is null" and leaves the
   * rows alone; a null cell gives the accessor's null value; a failed fetch
   * changes nothing.
   */
  lemma ReadSetsOnlyTheFlag(s: Cursor, a: Accessor, col: int)
    ensures var (r, t) := Read(s, a, col);
      && t.current == s.current && t.rest == s.rest
      && (CellAt(s, col).Ok? ==> t.wasNull == CellAt(s, col).value.Null?)
      && (CellAt(s, col) == Ok(Null) ==> r == Ok(NullValue(a)))
      && (CellAt(s, col).Err? ==> t == s && r == Err(CellAt(s, col).error))
  {
  }

  /** The numeric accessors never return a value outside their Java type. */
  lemma IntegralAccessorInRange(s: Cursor, a: Accessor, col: int)
    requires a.IsIntegral()
    ensures Read(s, a, col).0.Ok? ==>
      exists v | MinOf(a) <= v <= MaxOf(a) :: Read(s, a, col).0.value == IntegralValue(a, v)
  {
    var (r, t) := Read(s, a, col);
    if r.Ok? {
      var cell := CellAt(s, col).value;
      if cell.Null? {
        assert r.value == IntegralValue(a, 0);
      } else {
        assert r.value == IntegralValue(a, ParseDecimal(cell.text).value);
      }
    }
  }
}
