# MockResultSet, modelled and verified in Dafny

Apache Commons DbUtils tests its row handlers against `MockResultSet`. This is an
invocation handler that a dynamic proxy presents as a `java.sql.ResultSet`. It is an
in-memory, forward-only, read-only cursor over a fixed array of rows. Behind it sits
column metadata that supplies the column names.

Every call on the proxy reaches `invoke` as a method name and an argument array.
`invoke` routes on the name:
- `next` advances the row iterator;
- `isLast` looks ahead at the rows not yet fetched;
- `wasNull` reports the null flag;
- the `get*` accessors resolve their column reference, read one cell of the
  current row, set the null flag and coerce the cell.

A column reference is an `Integer` position or a `String` name. A name is looked up
case-insensitively among the current row's columns.

The project has two layers.

- **A value-level model** (`cursor_model.dfy`, `column_resolution.dfy`,
  `coercion.dfy`, `dispatch.dfy`). The cursor is the datatype `Cursor(current, rest,
  wasNull)`. `Advance`, `IsLastRow`, `ReadCell`, `FindColumnFrom`, `ColumnIndex`,
  `Coerce`, `Read` and `Dispatch.Invoke` say what each operation returns and what the
  cursor is afterwards. The lemmas about these functions prove the properties: exactly
  N successful advances over N rows, first-match and case-insensitive column lookup,
  null handling, parse round trips, and the routing table.
- **The handler itself** (`mock_result_set.dfy`). This is a class with the source's
  fields `currentRow`, `iter`, `metaData` and `wasNull`, and one method per method of
  the source. Each method updates the fields in place. Its `ensures` ties its result
  and the new fields to the value-level model: `(r, Model()) ==
  Dispatch.Invoke(old(Model()), …)`. A ghost invariant `Valid()` states that `iter` is
  what remains of the original rows and that `currentRow` is the last row fetched.

`java_text.dfy` models the parts of the Java platform that the accessors rely on:
- `String.equalsIgnoreCase`;
- `Byte/Short/Integer/Long.valueOf` as signed-decimal parsing plus a range check;
- `Integer.toString`;
- `Boolean.valueOf`.

`scenarios.dfy` states two call sequences on the class: two rows with columns `ID`
and `NAME`, and a row whose `ID` is null. The verifier derives each call's result
from the method contracts alone.

Exceptions become values of `Error`:
- `SQLException` splits into `InvalidArgumentType`, `ColumnNotFound` and `Coercion`;
- `UnsupportedOperationException` is `UnsupportedOperation(name)`;
- the Java runtime failures get their own kinds: `NotPositioned` for a read before
  the first `next`, `IndexOutOfRange` for a position outside the row,
  `MissingArgument` for a call with no argument, and `MetaDataFailure` for a probed
  column the metadata cannot name.

Two consequences of the code are easy to miss:
- `previous` and `close` have empty branches (MockResultSet.java:281-284). These fall
  through to the final throw (:328), so both calls end in `UnsupportedOperation`
  naming the method. Neither is a no-op.
- An accessor calls `setWasNull` (:116) before it parses. A read whose coercion fails
  has therefore already updated the flag.

## Model

| member | source | states |
|---|---|---|
| MockResultSet.MockResultSet.constructor | src/test/java/org/apache/commons/dbutils/MockResultSet.java:62-70 | the cursor starts unpositioned with the flag false over the given rows; absent rows (Java null) give the empty sequence |
| MockResultSet.MockResultSet.Next | src/test/java/org/apache/commons/dbutils/MockResultSet.java:341-347 | returns true exactly when rows remain; it then makes the next row current and drops it from the iterator; otherwise nothing changes; the null flag never changes; the invariant (current row = last fetched) is kept |
| MockResultSet.MockResultSet.IsLast | src/test/java/org/apache/commons/dbutils/MockResultSet.java:334-336 | true exactly when no row remains, i.e. every row has been fetched; changes nothing |
| MockResultSet.MockResultSet.WasNull | src/test/java/org/apache/commons/dbutils/MockResultSet.java:360-362 | returns the null flag; changes nothing |
| MockResultSet.MockResultSet.SetWasNull | src/test/java/org/apache/commons/dbutils/MockResultSet.java:353-355 | the flag becomes "the object is null"; only the flag changes |
| MockResultSet.MockResultSet.GetMetaData | src/test/java/org/apache/commons/dbutils/MockResultSet.java:222-224 | returns the stored column metadata |
| MockResultSet.MockResultSet.ColumnNameToIndex | src/test/java/org/apache/commons/dbutils/MockResultSet.java:98-107 | the index loop with early return computes the first-match lookup `FindColumn`; it fails when no row is current |
| MockResultSet.MockResultSet.ColumnIndex | src/test/java/org/apache/commons/dbutils/MockResultSet.java:80-91 | computes the column-reference resolution `ColumnIndex` for the first argument |
| MockResultSet.MockResultSet.GetBoolean | src/test/java/org/apache/commons/dbutils/MockResultSet.java:114-126 | result and new cursor are those of `Read` for the boolean accessor: fetch the cell, set the flag, coerce |
| MockResultSet.MockResultSet.GetByte | src/test/java/org/apache/commons/dbutils/MockResultSet.java:133-145 | as `Read` for the byte accessor |
| MockResultSet.MockResultSet.GetDouble | src/test/java/org/apache/commons/dbutils/MockResultSet.java:152-164 | as `ReadFloating` for the double accessor |
| MockResultSet.MockResultSet.GetFloat | src/test/java/org/apache/commons/dbutils/MockResultSet.java:171-181 | as `ReadFloating` for the float accessor |
| MockResultSet.MockResultSet.GetInt | src/test/java/org/apache/commons/dbutils/MockResultSet.java:188-200 | as `Read` for the int accessor |
| MockResultSet.MockResultSet.GetLong | src/test/java/org/apache/commons/dbutils/MockResultSet.java:207-217 | as `Read` for the long accessor |
| MockResultSet.MockResultSet.GetObject | src/test/java/org/apache/commons/dbutils/MockResultSet.java:231-235 | returns the stored cell itself after setting the flag (`ReadCell`) |
| MockResultSet.MockResultSet.GetShort | src/test/java/org/apache/commons/dbutils/MockResultSet.java:242-254 | as `Read` for the short accessor |
| MockResultSet.MockResultSet.GetString | src/test/java/org/apache/commons/dbutils/MockResultSet.java:261-265 | as `Read` for the string accessor; it reads through getObject and sets the flag again |
| MockResultSet.MockResultSet.Invoke | src/test/java/org/apache/commons/dbutils/MockResultSet.java:267-329 | result and new cursor are those of the routing model `Dispatch.Invoke`; the invariant is kept |
| CursorModel.ReadCell | src/test/java/org/apache/commons/dbutils/MockResultSet.java:115-116 | a cell read succeeds exactly when a row is current and the position lies in 1..length; it then returns cell c-1 and sets the flag to "cell is null"; a failed read changes nothing; rows are never touched |
| CursorModel.AdvanceTimesCounts | src/test/java/org/apache/commons/dbutils/MockResultSet.java:341-347 | of k calls of next with m rows remaining, call i succeeds iff i < m; min(k, m) rows are consumed; the last consumed row is current; the flag is as before |
| CursorModel.ExactlyAsManyAdvancesAsRows | src/test/java/org/apache/commons/dbutils/MockResultSet.java:341-347 | over N rows, the first N calls of next return true and call N+1 returns false |
| CursorModel.IsLastAfterAdvances | src/test/java/org/apache/commons/dbutils/MockResultSet.java:334-336 | after k calls of next over N rows, isLast holds iff k >= N (so it is false before any next on a non-empty sequence); the current row is row k, or the last row when k > N |
| CursorModel.AdvanceSucceedsIffRowsRemain | src/test/java/org/apache/commons/dbutils/MockResultSet.java:341-347 | next succeeds iff isLast is false; a failing next changes nothing; next never alters the flag |
| CursorModel.AbsentRowsAreEmpty | src/test/java/org/apache/commons/dbutils/MockResultSet.java:62-69 | absent rows give the same cursor as an empty array: next is false and leaves it unchanged, isLast is true, the flag starts false |
| ColumnResolution.FindColumnFrom | src/test/java/org/apache/commons/dbutils/MockResultSet.java:98-107 | from loop position i, the result is the first 1-based c in i+1..length whose metadata name equals the name ignoring case; it is ColumnNotFound iff no position of the row matches and the metadata has names for all of them; MetaDataFailure iff the metadata runs out first |
| ColumnResolution.FindColumnIsFirstMatch | src/test/java/org/apache/commons/dbutils/MockResultSet.java:98-107 | when the metadata covers the row, lookup succeeds iff some column matches, with the smallest match in 1..length, and otherwise fails with ColumnNotFound |
| ColumnResolution.FindColumnFromIgnoresCase | src/test/java/org/apache/commons/dbutils/MockResultSet.java:101 | names equal ignoring case give the same lookup result |
| ColumnResolution.ColumnIndexIgnoresCase | src/test/java/org/apache/commons/dbutils/MockResultSet.java:86-88 | names equal ignoring case (for example "ID", "id", "Id") resolve to the same column or the same error |
| ColumnResolution.ColumnIndexCases | src/test/java/org/apache/commons/dbutils/MockResultSet.java:80-91 | an Integer passes through unchanged; a resolved String lies within the current row; null or any other object is InvalidArgumentType |
| Coercion.Coerce | src/test/java/org/apache/commons/dbutils/MockResultSet.java:114-265 | a null cell gives false, 0 or null; integral accessors succeed iff the text is a signed decimal within the type's range, and then return its value; boolean is true iff the lower-cased text is "true" and never fails; string returns the text; object returns the cell; only integral parsing fails |
| Coercion.CoerceFloating | src/test/java/org/apache/commons/dbutils/MockResultSet.java:152-181 | a null cell gives zero; otherwise the call succeeds iff the platform accepts the text, and then returns the double or float box holding that text; a failure is a coercion error |
| Coercion.IntegralAccessorReadsRendering | src/test/java/org/apache/commons/dbutils/MockResultSet.java:193-195 | an integral accessor on the decimal text of n returns n when n fits the type, otherwise a coercion error |
| Coercion.ReadSetsOnlyTheFlag | src/test/java/org/apache/commons/dbutils/MockResultSet.java:353-355 | every accessor sets the flag to exactly "cell is null" and leaves the rows alone; a null cell gives the accessor's null value; a failed fetch changes nothing |
| Coercion.IntegralAccessorInRange | src/test/java/org/apache/commons/dbutils/MockResultSet.java:188-217 | a successful integral accessor returns a value within the Java type's range |
| Dispatch.RouteMethodName | src/test/java/org/apache/commons/dbutils/MockResultSet.java:271-326 | each listed method name reaches its own branch |
| Dispatch.MethodNameOfRoute | src/test/java/org/apache/commons/dbutils/MockResultSet.java:271-326 | a name that reaches a listed branch is exactly that branch's name (routing is exact and case-sensitive) |
| Dispatch.UnsupportedExactly | src/test/java/org/apache/commons/dbutils/MockResultSet.java:281-328 | invoke fails with UnsupportedOperation naming the method iff the name is "previous", "close" or unlisted, and then changes nothing |
| Dispatch.PreviousAndCloseAreUnsupported | src/test/java/org/apache/commons/dbutils/MockResultSet.java:281-284 | "previous" and "close" fall through their empty branches: UnsupportedOperation, cursor unchanged |
| Dispatch.InvokeFrame | src/test/java/org/apache/commons/dbutils/MockResultSet.java:273-316 | only next moves the cursor; only the get* accessors change the flag |
| Dispatch.InvokeGetReadsResolvedCell | src/test/java/org/apache/commons/dbutils/MockResultSet.java:285-310 | a call of getBoolean, getByte, getInt, getLong, getObject, getShort or getString whose column resolves to an existing cell returns that accessor's coercion of the cell and sets the flag to "cell is null" |
| Dispatch.InvokeGetFloatingReadsResolvedCell | src/test/java/org/apache/commons/dbutils/MockResultSet.java:152-181 | a getDouble or getFloat call whose column resolves to an existing cell returns the floating coercion of the cell and sets the flag to "cell is null" |
| Dispatch.InvokeIgnoresNameCase | src/test/java/org/apache/commons/dbutils/MockResultSet.java:285-310 | a get* call by column names equal ignoring case gives the same result and cursor |
| Dispatch.ToStringNamesTheHash | src/test/java/org/apache/commons/dbutils/MockResultSet.java:321-322 | toString is "MockResultSet " followed by a decimal that parses back to the proxy's identity hash; nothing changes |
| Dispatch.EqualsIsIdentity | src/test/java/org/apache/commons/dbutils/MockResultSet.java:324-325 | equals is true exactly when the argument is the proxy's own reference |
| JavaText.EqualsIgnoreCaseIffSameLowerCase | src/test/java/org/apache/commons/dbutils/MockResultSet.java:101 | equalsIgnoreCase, with its per-character test, holds iff the lower-cased strings are equal |
| JavaText.EqualsIgnoreCaseIsEquivalence | src/test/java/org/apache/commons/dbutils/MockResultSet.java:101 | equalsIgnoreCase is reflexive, symmetric and transitive |
| JavaText.ParseIntegral | src/test/java/org/apache/commons/dbutils/MockResultSet.java:193-199 | valueOf for an integral type accepts exactly the signed decimals whose value is in the type's range, and returns that parsed value |
| JavaText.ParseDecimalText | src/test/java/org/apache/commons/dbutils/MockResultSet.java:195 | parsing the decimal rendering of any integer gives it back |
| JavaText.ParseIntegralText | src/test/java/org/apache/commons/dbutils/MockResultSet.java:195 | valueOf on the rendering of n gives n iff n is in range, otherwise it fails |
| JavaText.CanonicalDecimalText | src/test/java/org/apache/commons/dbutils/MockResultSet.java:322 | a canonical decimal (no '+', no leading zero, no "-0") is the rendering of the number it parses to |
| JavaText.ParseBoolean | src/test/java/org/apache/commons/dbutils/MockResultSet.java:121 | Boolean.valueOf is true iff the lower-cased text is "true" |
| CursorModel.Init | src/test/java/org/apache/commons/dbutils/MockResultSet.java:62-70 | reference definition of the constructor's state: unpositioned, flag false, absent rows as no rows; its properties are in AbsentRowsAreEmpty, ExactlyAsManyAdvancesAsRows and IsLastAfterAdvances |
| CursorModel.Advance | src/test/java/org/apache/commons/dbutils/MockResultSet.java:341-347 | reference definition of next: fetch the first remaining row if there is one; its properties are in AdvanceSucceedsIffRowsRemain, AdvanceTimesCounts and ExactlyAsManyAdvancesAsRows |
| CursorModel.IsLastRow | src/test/java/org/apache/commons/dbutils/MockResultSet.java:334-336 | reference definition of isLast as the look-ahead "no row remains"; its properties are in IsLastAfterAdvances and AdvanceSucceedsIffRowsRemain |
| CursorModel.CellAt | src/test/java/org/apache/commons/dbutils/MockResultSet.java:115 | reference definition of the cell fetch: NotPositioned before the first row, IndexOutOfRange outside 1..length, else cell c-1; its properties are in the contract of ReadCell |
| ColumnResolution.FindColumn | src/test/java/org/apache/commons/dbutils/MockResultSet.java:98-107 | reference definition of columnNameToIndex: NotPositioned without a current row, else the loop from position 0; its properties are in FindColumnFrom's contract and FindColumnIsFirstMatch |
| ColumnResolution.ColumnIndex | src/test/java/org/apache/commons/dbutils/MockResultSet.java:80-91 | reference definition of columnIndex on the first argument; its properties are in ColumnIndexCases and ColumnIndexIgnoresCase |
| Coercion.Read | src/test/java/org/apache/commons/dbutils/MockResultSet.java:114-265 | reference definition of an accessor call: fetch, set the flag, coerce; its properties are in ReadSetsOnlyTheFlag, IntegralAccessorInRange and the contracts of ReadCell and Coerce |
| Coercion.ReadFloating | src/test/java/org/apache/commons/dbutils/MockResultSet.java:152-181 | reference definition of getDouble and getFloat: fetch, set the flag, coerce with the floating parse; its properties are in the contracts of ReadCell and CoerceFloating |
| Dispatch.Route | src/test/java/org/apache/commons/dbutils/MockResultSet.java:271-326 | reference definition of the name test chain in invoke, in source order; its properties are in RouteMethodName, MethodNameOfRoute and UnsupportedExactly |
| Dispatch.Invoke | src/test/java/org/apache/commons/dbutils/MockResultSet.java:267-329 | reference definition of invoke: result and cursor afterwards for every name; its properties are in UnsupportedExactly, PreviousAndCloseAreUnsupported, InvokeFrame, the two Invoke…ReadsResolvedCell lemmas, InvokeIgnoresNameCase, ToStringNamesTheHash and EqualsIsIdentity |
| JavaText.EqualsIgnoreCase | src/test/java/org/apache/commons/dbutils/MockResultSet.java:101 | reference definition of String.equalsIgnoreCase with its per-character three-way test; its properties are in EqualsIgnoreCaseIffSameLowerCase and EqualsIgnoreCaseIsEquivalence |
| JavaText.ParseDecimal | src/test/java/org/apache/commons/dbutils/MockResultSet.java:195 | reference definition of radix-10 parsing before the range check: optional sign, then at least one digit; its properties are in ParseDecimalText, CanonicalDecimalText and the contract of ParseIntegral |
| JavaText.DecimalText | src/test/java/org/apache/commons/dbutils/MockResultSet.java:322 | reference definition of Integer.toString; its properties are in ParseDecimalText (it parses back) and CanonicalDecimalText (it is the only canonical form) |

## Left out

- `create` and the proxy factory (MockResultSet.java:43-47) are reflection plumbing. The model calls `Invoke` directly with the method name and argument list.
- `Coercion.CoerceFloating`: does not model Java's floating-point grammar or rounding. Which texts `Double.valueOf` and `Float.valueOf` accept is the `accepts` parameter. A successful result keeps the text (`FloatOf(text)`) instead of a binary double or float.
- `System.identityHashCode` and proxy identity are inputs, not computed: `Proxy(ref, identityHash)`. `equals` compares references.
- `ResultSetMetaData` is reduced to a sequence of column names. Asking it for a position beyond the names is `MetaDataFailure`. What a real metadata object does there (an `SQLException` or a runtime exception) is not modelled.
- Exception messages are not modelled, only their kinds. `UnsupportedOperation` keeps the method name.
- Case mapping covers ASCII letters only. Java's `toUpperCase`/`toLowerCase` also map other Unicode letters.
- Digits are ASCII only. `Character.digit` also accepts other Unicode decimal digits.
- A cell stands for its object through its `toString()` text. Objects whose rendering changes between reads are not modelled. `getObject` returns the cell.
- A row element that is itself `null` is not modelled, and neither is a caller changing the row arrays after construction (aliasing). Rows are immutable sequences.
- `columnIndex - 1` in Java `int` arithmetic wraps for `Integer.MIN_VALUE`. The model uses unbounded integers here. The wrapped index is out of bounds anyway, so the outcome (`IndexOutOfRange`) is the same.
- Concurrency: the handler is single-threaded, and nothing here models interleaved calls.
