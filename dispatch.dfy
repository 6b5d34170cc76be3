/** invoke: route an intercepted call by its method name. */
module Dispatch {
  import opened Wrappers
  import opened JavaText
  import opened ResultSetTypes
  import opened CursorModel
  import opened ColumnResolution
  import opened Coercion

  datatype Operation =
    | GetMetaData | Next | Previous | Close
    | Get(a: Accessor) | GetFloating(f: FloatingAccessor)
    | WasNull | IsLast | HashCode | ToString | Equals
    | Unlisted

  /** The branch of invoke a method name selects (exact, case-sensitive match). */
  function Route(name: string): Operation {
    if name == "getMetaData" then GetMetaData
    else if name == "next" then Next
    else if name == "previous" then Previous
    else if name == "close" then Close
    else if name == "getBoolean" then Get(Boolean)
    else if name == "getByte" then Get(Byte)
    else if name == "getDouble" then GetFloating(Double)
    else if name == "getFloat" then GetFloating(Float)
    else if name == "getInt" then Get(Int)
    else if name == "getLong" then Get(Long)
    else if name == "getObject" then Get(Object)
    else if name == "getShort" then Get(Short)
    else if name == "getString" then Get(String)
    else if name == "wasNull" then WasNull
    else if name == "isLast" then IsLast
    else if name == "hashCode" then HashCode
    else if name == "toString" then ToString
    else if name == "equals" then Equals
    else Unlisted
  }

  /** The method name invoke lists for each operation. */
  function MethodName(op: Operation): string
    requires !op.Unlisted?
  {
    match op
    case GetMetaData => "getMetaData"
    case Next => "next"
    case Previous => "previous"
    case Close => "close"
    case Get(a) =>
      (match a
       case Boolean => "getBoolean"
       case Byte => "getByte"
       case Int => "getInt"
       case Long => "getLong"
       case Object => "getObject"
       case Short => "getShort"
       case String => "getString")
    case GetFloating(f) => if f == Double then "getDouble" else "getFloat"
    case WasNull => "wasNull"
    case IsLast => "isLast"
    case HashCode => "hashCode"
    case ToString => "toString"
    case Equals => "equals"
  }

  /** toString of the proxy. */
  function ProxyText(proxy: Proxy): string {
    "MockResultSet " + DecimalText(proxy.identityHash as int)
  }

  /**
   * invoke on cursor s with metadata meta, intercepted through proxy: the result
   * (a value or the exception thrown) and the cursor afterwards.  The "previous"
   * and "close" branches are empty and fall through to the final throw.
   */
  function Invoke(s: Cursor, meta: seq<string>, proxy: Proxy, name: string, args: seq<Arg>,
                  accepts: string -> bool): (Result<Value, Error>, Cursor)
  {
    match Route(name)
    case GetMetaData => (Ok(MetaDataV(meta)), s)
    case Next => var (b, t) := Advance(s); (Ok(BooleanV(b)), t)
    case Get(a) =>
      (match ColumnIndex(meta, s.current, args)
       case Err(e) => (Err(e), s)
       case Ok(c) => Read(s, a, c))
    case GetFloating(f) =>
      (match ColumnIndex(meta, s.current, args)
       case Err(e) => (Err(e), s)
       case Ok(c) => ReadFloating(s, f, c, accepts))
    case WasNull => (Ok(BooleanV(s.wasNull)), s)
    case IsLast => (Ok(BooleanV(IsLastRow(s))), s)
    case HashCode => (Ok(IntegerV(proxy.identityHash as int)), s)
    case ToString => (Ok(StringV(Some(ProxyText(proxy)))), s)
    case Equals =>
      if |args| == 0 then (Err(MissingArgument), s)
      else (Ok(BooleanV(args[0] == ObjectArg(proxy.ref))), s)
    case _ => (Err(UnsupportedOperation(name)), s)
  }

  /** Every listed operation is reached by its own name ... */
  lemma RouteMethodName(op: Operation)
    requires !op.Unlisted?
    ensures Route(MethodName(op)) == op
  {
    match op
    case Get(a) =>
      match a {
        case Boolean =>
        case Byte =>
        case Int =>
        case Long =>
        case Object =>
        case Short =>
        case String =>
      }
    case GetFloating(f) =>
    case _ =>
  }

  /** ... and by no other: a routed name is the listed name of its operation. */
  lemma MethodNameOfRoute(name: string)
    requires !Route(name).Unlisted?
    ensures MethodName(Route(name)) == name
  {
    match Route(name)
    case Get(a) =>
      match a {
        case Boolean =>
        case Byte =>
        case Int =>
        case Long =>
        case Object =>
        case Short =>
        case String =>
      }
    case GetFloating(f) =>
    case _ =>
  }

  /**
   * invoke throws UnsupportedOperationException naming the method exactly for
   * "previous", "close" and the unlisted names, and then changes nothing.
   */
  lemma UnsupportedExactly(s: Cursor, meta: seq<string>, proxy: Proxy, name: string, args: seq<Arg>,
                           accepts: string -> bool)
    ensures var (r, t) := Invoke(s, meta, proxy, name, args, accepts);
      && (r == Err(UnsupportedOperation(name)) <==> Route(name) in {Previous, Close, Unlisted})
      && (r.Err? && r.error.UnsupportedOperation? ==> r.error.methodName == name && t == s)
  {
  }

  lemma PreviousAndCloseAreUnsupported(s: Cursor, meta: seq<string>, proxy: Proxy, args: seq<Arg>,
                                       accepts: string -> bool)
    ensures Invoke(s, meta, proxy, "previous", args, accepts) == (Err(UnsupportedOperation("previous")), s)
    ensures Invoke(s, meta, proxy, "close", args, accepts) == (Err(UnsupportedOperation("close")), s)
  {
  }

  /** Only next moves the cursor, and only the accessors touch the null flag. */
  lemma InvokeFrame(s: Cursor, meta: seq<string>, proxy: Proxy, name: string, args: seq<Arg>,
                    accepts: string -> bool)
    ensures var (r, t) := Invoke(s, meta, proxy, name, args, accepts);
      && (Route(name) != Next ==> t.current == s.current && t.rest == s.rest)
      && (!Route(name).Get? && !Route(name).GetFloating? ==> t.wasNull == s.wasNull)
  {
    match Route(name)
    case Get(a) =>
      if ColumnIndex(meta, s.current, args).Ok? {
        ReadSetsOnlyTheFlag(s, a, ColumnIndex(meta, s.current, args).value);
      }
    case _ =>
  }

  /**
   * A get* call whose column resolves and whose cell exists sets the flag to
   * "the cell is null" and returns the accessor's coercion of that cell.
   */
  lemma InvokeGetReadsResolvedCell(s: Cursor, meta: seq<string>, proxy: Proxy, name: string,
                                   args: seq<Arg>, accepts: string -> bool, c: int, cell: Cell)
    requires Route(name).Get?
    requires ColumnIndex(meta, s.current, args) == Ok(c)
    requires CellAt(s, c) == Ok(cell)
    ensures Invoke(s, meta, proxy, name, args, accepts) ==
      (Coerce(Route(name).a, cell), s.(wasNull := cell.Null?))
  {
  }

  /**
   * The same for getDouble / getFloat: the flag becomes "the cell is null" and
   * the result is the floating coercion of that cell.
   */
  lemma InvokeGetFloatingReadsResolvedCell(s: Cursor, meta: seq<string>, proxy: Proxy, name: string,
                                           args: seq<Arg>, accepts: string -> bool, c: int, cell: Cell)
    requires Route(name).GetFloating?
    requires ColumnIndex(meta, s.current, args) == Ok(c)
    requires CellAt(s, c) == Ok(cell)
    ensures Invoke(s, meta, proxy, name, args, accepts) ==
      (CoerceFloating(Route(name).f, cell, accepts), s.(wasNull := cell.Null?))
  {
  }

  /** A column name given in any mix of cases selects the same column. */
  lemma InvokeIgnoresNameCase(s: Cursor, meta: seq<string>, proxy: Proxy, name: string,
                              x: string, y: string, accepts: string -> bool)
    requires Route(name).Get? || Route(name).GetFloating?
    requires EqualsIgnoreCase(x, y)
    ensures Invoke(s, meta, proxy, name, [StringArg(x)], accepts) ==
            Invoke(s, meta, proxy, name, [StringArg(y)], accepts)
  {
    ColumnIndexIgnoresCase(meta, s.current, x, y);
  }

  /** toString names the proxy by a decimal that parses back to its identity hash. */
  lemma ToStringNamesTheHash(s: Cursor, meta: seq<string>, proxy: Proxy, args: seq<Arg>,
                             accepts: string -> bool)
    ensures var (r, t) := Invoke(s, meta, proxy, "toString", args, accepts);
      && t == s && r.Ok? && r.value.StringV? && r.value.s.Some?
      && var text := r.value.s.value;
      && |text| > 14 && text[..14] == "MockResultSet "
      && ParseDecimal(text[14..]) == Some(proxy.identityHash as int)
  {
    var d := DecimalText(proxy.identityHash as int);
    ParseDecimalText(proxy.identityHash as int);
    NatTextDigits(if proxy.identityHash < 0 then -(proxy.identityHash as int) else proxy.identityHash as int);
    assert ProxyText(proxy)[14..] == d;
  }

  /** equals holds exactly when the argument is the proxy itself. */
  lemma EqualsIsIdentity(s: Cursor, meta: seq<string>, proxy: Proxy, x: Arg, accepts: string -> bool)
    ensures Invoke(s, meta, proxy, "equals", [x], accepts).0 == Ok(BooleanV(true)) <==>
      x.ObjectArg? && x.ref == proxy.ref
  {
  }
}
