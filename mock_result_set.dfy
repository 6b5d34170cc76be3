/**
 * The mock cursor itself: an invocation handler whose fields the intercepted
 * calls update in place.  Each method is proved against the cursor model.
 */
module MockResultSet {
  import opened Wrappers
  import opened JavaText
  import opened ResultSetTypes
  import opened CursorModel
  import opened ColumnResolution
  import opened Coercion
  import Dispatch

  class MockResultSet {
    /** The last fetched row; None until next() first succeeds. */
    var currentRow: Option<Row>
    /** The rows the iterator has not yet returned. */
    var iter: seq<Row>
    /** The column names, 1-based through getColumnName. */
    const metaData: seq<string>
    var wasNull: bool

    /** All the rows the cursor was built with, and how many next() has fetched. */
    ghost const rows: seq<Row>
    ghost var fetched: nat

    /** The iterator is a suffix of the rows, and the current row is the last one fetched. */
    ghost predicate Valid()
      reads this
    {
      && fetched <= |rows|
      && iter == rows[fetched..]
      && currentRow == (if fetched == 0 then None else Some(rows[fetched - 1]))
    }

    function Model(): Cursor
      reads this
    {
      Cursor(currentRow, iter, wasNull)
    }

    /** Absent rows (Java null) give an empty cursor. */
    constructor (metaData: seq<string>, rows: Option<seq<Row>>)
      ensures Valid() && fetched == 0
      ensures this.metaData == metaData
      ensures this.rows == (if rows.Some? then rows.value else [])
      ensures Model() == Init(rows)
    {
      this.metaData := metaData;
      if rows.None? {
        this.rows := [];
        iter := [];
      } else {
        this.rows := rows.value;
        iter := rows.value;
      }
      currentRow := None;
      wasNull := false;
      fetched := 0;
    }

    method Next() returns (b: bool)
      requires Valid()
      modifies this`currentRow, this`iter, this`fetched
      ensures Valid()
      ensures (b, Model()) == Advance(old(Model()))
      ensures b <==> old(fetched) < |rows|
      ensures fetched == if b then old(fetched) + 1 else old(fetched)
    {
      if iter == [] {
        return false;
      }
      currentRow := Some(iter[0]);
      iter := iter[1..];
      fetched := fetched + 1;
      return true;
    }

    method IsLast() returns (b: bool)
      requires Valid()
      ensures b == IsLastRow(Model())
      ensures b <==> fetched == |rows|
    {
      b := iter == [];
    }

    method WasNull() returns (b: bool)
      ensures b == wasNull
    {
      b := wasNull;
    }

    method SetWasNull(obj: Cell)
      modifies this`wasNull
      ensures wasNull == obj.Null?
    {
      wasNull := obj.Null?;
    }

    method GetMetaData() returns (m: seq<string>)
      ensures m == metaData
    {
      m := metaData;
    }

    /** The loop over the current row's positions, returning at the first matching name. */
    method ColumnNameToIndex(columnName: string) returns (r: Result<int, Error>)
      ensures r == FindColumn(metaData, currentRow, columnName)
    {
      if currentRow.None? {
        return Err(NotPositioned);
      }
      var row := currentRow.value;
      var i := 0;
      while i < |row|
        invariant 0 <= i <= |row|
        invariant FindColumnFrom(metaData, row, columnName, i) == FindColumnFrom(metaData, row, columnName, 0)
      {
        var c := i + 1;
        if c > |metaData| {
          return Err(MetaDataFailure);
        }
        if EqualsIgnoreCase(metaData[c - 1], columnName) {
          return Ok(c);
        }
        i := i + 1;
      }
      return Err(ColumnNotFound);
    }

    method ColumnIndex(args: seq<Arg>) returns (r: Result<int, Error>)
      ensures r == ColumnResolution.ColumnIndex(metaData, currentRow, args)
    {
      if |args| == 0 {
        return Err(MissingArgument);
      }
      match args[0]
      case IntegerArg(i) =>
        return Ok(i as int);
      case StringArg(name) =>
        r := ColumnNameToIndex(name);
      case _ =>
        return Err(InvalidArgumentType);
    }

    method GetBoolean(columnIndex: int) returns (r: Result<Value, Error>)
      modifies this`wasNull
      ensures (r, Model()) == Read(old(Model()), Accessor.Boolean, columnIndex)
    {
      var obj :- CellAt(Model(), columnIndex);
      SetWasNull(obj);
      r := if obj.Null? then Ok(BooleanV(false)) else Ok(BooleanV(ParseBoolean(obj.text)));
    }

    method GetByte(columnIndex: int) returns (r: Result<Value, Error>)
      modifies this`wasNull
      ensures (r, Model()) == Read(old(Model()), Accessor.Byte, columnIndex)
    {
      var obj :- CellAt(Model(), columnIndex);
      SetWasNull(obj);
      r := if obj.Null? then Ok(ByteV(0))
           else match ParseIntegral(obj.text, ByteMin, ByteMax)
                case Some(v) => Ok(ByteV(v))
                case None => Err(Coercion);
    }

    method GetDouble(columnIndex: int, accepts: string -> bool) returns (r: Result<Value, Error>)
      modifies this`wasNull
      ensures (r, Model()) == ReadFloating(old(Model()), FloatingAccessor.Double, columnIndex, accepts)
    {
      var obj :- CellAt(Model(), columnIndex);
      SetWasNull(obj);
      r := if obj.Null? then Ok(DoubleV(FloatZero))
           else if accepts(obj.text) then Ok(DoubleV(FloatOf(obj.text)))
           else Err(Coercion);
    }

    method GetFloat(columnIndex: int, accepts: string -> bool) returns (r: Result<Value, Error>)
      modifies this`wasNull
      ensures (r, Model()) == ReadFloating(old(Model()), FloatingAccessor.Float, columnIndex, accepts)
    {
      var obj :- CellAt(Model(), columnIndex);
      SetWasNull(obj);
      r := if obj.Null? then Ok(FloatV(FloatZero))
           else if accepts(obj.text) then Ok(FloatV(FloatOf(obj.text)))
           else Err(Coercion);
    }

    method GetInt(columnIndex: int) returns (r: Result<Value, Error>)
      modifies this`wasNull
      ensures (r, Model()) == Read(old(Model()), Accessor.Int, columnIndex)
    {
      var obj :- CellAt(Model(), columnIndex);
      SetWasNull(obj);
      r := if obj.Null? then Ok(IntegerV(0))
           else match ParseIntegral(obj.text, IntMin, IntMax)
                case Some(v) => Ok(IntegerV(v))
                case None => Err(Coercion);
    }

    method GetLong(columnIndex: int) returns (r: Result<Value, Error>)
      modifies this`wasNull
      ensures (r, Model()) == Read(old(Model()), Accessor.Long, columnIndex)
    {
      var obj :- CellAt(Model(), columnIndex);
      SetWasNull(obj);
      r := if obj.Null? then Ok(LongV(0))
           else match ParseIntegral(obj.text, LongMin, LongMax)
                case Some(v) => Ok(LongV(v))
                case None => Err(Coercion);
    }

    method GetObject(columnIndex: int) returns (r: Result<Cell, Error>)
      modifies this`wasNull
      ensures (r, Model()) == ReadCell(old(Model()), columnIndex)
    {
      var obj :- CellAt(Model(), columnIndex);
      SetWasNull(obj);
      return Ok(obj);
    }

    method GetShort(columnIndex: int) returns (r: Result<Value, Error>)
      modifies this`wasNull
      ensures (r, Model()) == Read(old(Model()), Accessor.Short, columnIndex)
    {
      var obj :- CellAt(Model(), columnIndex);
      SetWasNull(obj);
      r := if obj.Null? then Ok(ShortV(0))
           else match ParseIntegral(obj.text, ShortMin, ShortMax)
                case Some(v) => Ok(ShortV(v))
                case None => Err(Coercion);
    }

    method GetString(columnIndex: int) returns (r: Result<Value, Error>)
      modifies this`wasNull
      ensures (r, Model()) == Read(old(Model()), Accessor.String, columnIndex)
    {
      var obj :- GetObject(columnIndex);
      SetWasNull(obj);
      r := Ok(StringV(if obj.Null? then None else Some(obj.text)));
    }

    /**
     * The invocation handler: the method name selects a branch (Route is the
     * chain of name comparisons).  The branches for "previous" and "close" are
     * empty and fall through to the final throw, like every unlisted name.
     * proxy is the object the call came through; accepts is the platform's
     * floating-point syntax.
     */
    method Invoke(proxy: Proxy, methodName: string, args: seq<Arg>, accepts: string -> bool)
      returns (r: Result<Value, Error>)
      requires Valid()
      modifies this`currentRow, this`iter, this`fetched, this`wasNull
      ensures Valid()
      ensures (r, Model()) == Dispatch.Invoke(old(Model()), metaData, proxy, methodName, args, accepts)
    {
      match Dispatch.Route(methodName) {
      case GetMetaData =>
        var m := GetMetaData();
        return Ok(MetaDataV(m));
      case Next =>
        var b := Next();
        return Ok(BooleanV(b));
      case Previous =>
      case Close =>
      case Get(a) =>
        var c :- ColumnIndex(args);
        match a {
          case Boolean => r := GetBoolean(c);
          case Byte => r := GetByte(c);
          case Int => r := GetInt(c);
          case Long => r := GetLong(c);
          case Object =>
            var obj :- GetObject(c);
            r := Ok(ObjectV(obj));
          case Short => r := GetShort(c);
          case String => r := GetString(c);
        }
        return;
      case GetFloating(f) =>
        var c :- ColumnIndex(args);
        if f == Double {
          r := GetDouble(c, accepts);
        } else {
          r := GetFloat(c, accepts);
        }
        return;
      case WasNull =>
        var b := WasNull();
        return Ok(BooleanV(b));
      case IsLast =>
        var b := IsLast();
        return Ok(BooleanV(b));
      case HashCode =>
        return Ok(IntegerV(proxy.identityHash as int));
      case ToString =>
        return Ok(StringV(Some("MockResultSet " + DecimalText(proxy.identityHash as int))));
      case Equals =>
        if |args| == 0 {
          return Err(MissingArgument);
        }
        return Ok(BooleanV(args[0] == ObjectArg(proxy.ref)));
      case Unlisted =>
      }
      return Err(UnsupportedOperation(methodName));
    }
  }
}
