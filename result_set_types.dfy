/** The values the mock cursor stores, receives and returns. */
module ResultSetTypes {
  import opened Wrappers
  import opened JavaText

  /** One column value of a row: Java null, or an object known by its toString() text. */
  datatype Cell = Null | Val(text: string)

  /** A row: its cells in column order; column c (1-based) is cell c - 1. */
  type Row = seq<Cell>

  /** The first argument of an intercepted call, by its runtime class. */
  datatype Arg =
    | IntegerArg(i: Int32)   // a java.lang.Integer
    | StringArg(s: string)   // a java.lang.String
    | NullArg                // null
    | ObjectArg(ref: nat)    // any other object, known by its reference

  /** The proxy object the calls arrive through: its reference and System.identityHashCode. */
  datatype Proxy = Proxy(ref: nat, identityHash: Int32)

  datatype Error =
    | InvalidArgumentType           // SQLException: column reference neither Integer nor String
    | ColumnNotFound                // SQLException: not a valid column name
    | Coercion                      // SQLException wrapping a NumberFormatException
    | UnsupportedOperation(methodName: string)
    | NotPositioned                 // NullPointerException: no row fetched yet
    | IndexOutOfRange               // ArrayIndexOutOfBoundsException on the current row
    | MissingArgument               // the call carried no argument to read
    | MetaDataFailure               // the metadata has no name for a probed column

  /** A double or float result: zero for a null cell, otherwise the number the text denotes. */
  datatype Floating = FloatZero | FloatOf(text: string)

  /** A result of an intercepted call. */
  datatype Value =
    | MetaDataV(names: seq<string>)
    | BooleanV(b: bool)
    | ByteV(i: int)
    | ShortV(i: int)
    | IntegerV(i: int)
    | LongV(i: int)
    | DoubleV(f: Floating)
    | FloatV(f: Floating)
    | ObjectV(cell: Cell)          // getObject: the stored object itself, Null for null
    | StringV(s: Option<string>)   // None is Java null
}
