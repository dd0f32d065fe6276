# Timestream database/sql driver: the value-conversion core

This project models the value-conversion core of a Go `database/sql` driver for Amazon
Timestream, the time-series database whose query service answers with self-describing
column descriptors and datums. The core has four parts:

- **Query interpolation** (`Connection`, `Parameters`). `interpolatesQuery` replaces each `?`
  of a query template with the next argument, by position. It then expands every `$name$`
  token with the text of the named argument. `formatParam` is the rule that writes one
  parameter: numbers and booleans verbatim, strings and byte slices in single quotes with no
  escaping, times in the timestamp layout, quoted. A `driver.Valuer` is resolved once. A
  bare value (`BareStringValue`, module `Bare`) is written without quotes. The named
  expansion is `strings.Replacer`, modelled in `StringsReplacer` as a left-to-right scan in
  which the first token in argument order that matches wins and the scan resumes after it.
- **Result decoding** (`Decoder`). `scanColumn` turns one datum and its descriptor into a
  native value. An array descriptor takes precedence and yields a deferred payload. A scalar
  descriptor is decoded by `scanScalarColumn`:
  - BIGINT through an arbitrary-precision integer, narrowed to int64, else uint64, else "out
    of range";
  - INTEGER through `strconv.ParseInt`;
  - DOUBLE through the platform's float parser;
  - BOOLEAN by comparison with `"true"`;
  - VARCHAR and the two interval types as text;
  - DATE, TIMESTAMP and TIME through the two fixed time layouts (`CivilTime`);
  - UNKNOWN as nil;
  - anything else as an error.

  The decimal and time conversions of the Go library are modelled in `Decimal` and
  `CivilTime`.
- **The row cursor** (`RowCursor`). The class `Rows` holds the buffered column descriptors
  and rows, the position `pos` and the cached column names. `Next` reports the end of the
  rows, or decodes the current row cell by cell into the caller's slots and advances. The
  metadata functions `getColumn`, `ColumnTypeDatabaseTypeName` and `ColumnTypeScanType` are
  pure lookups.
- **Array scanners** (`ArrayScanners`). `Array` picks a scanner for a destination. The
  string, integer, float and boolean scanners fill their slice element by element; a parse
  failure aborts and leaves the slice untouched. `AnyArray` receives the result of `scanAny`,
  the recursive decoder whose output has the nesting of the payload.

The Go types are modelled as follows:

- Wire shapes, decoded values and errors are datatypes in `Values`.
- `int64`/`uint64` are bounded subset types of `int`.
- A float is known only by its bits. Float text is read and written by a `FloatCodec`
  parameter that stands for `strconv.ParseFloat` and `strconv.FormatFloat`.
- Errors are structured values rather than message strings.

Where the code dereferences a pointer that may be nil, the model states that the pointer is
present as a precondition. This covers:

- the scalar text of a cell that is read;
- a column's name;
- a descriptor for every cell of a row.

Two behaviours of the code worth knowing:

- An array column has no scalar type, so `getTSDataType` reports it as UNKNOWN and
  `ColumnTypeScanType` gives it the nil type (`rows.go:54-89`, `rows.go:216-224`;
  `RowCursor.ArrayColumnTypedAsUnknown`).
- Null cells. `cases_test.go:88-90,126` expect a null cell to decode to nil, but the code
  dereferences the absent scalar text for every type that reads it. The model follows the
  code: it decodes null cells only under UNKNOWN or an unsupported type, and makes scalar
  text a precondition elsewhere (`Decoder.ScalarDecodable`).

## Model

| member | source | states |
|---|---|---|
| Connection.InterpolatesQuery | connection.go:69-91 | The rune loop appending to a buffer returns the interpolation when it succeeds. On any error it returns that error and the empty query. |
| Connection.UnnamedInterpolation | connection.go:76-90 | With unnamed arguments that all format, interpolation succeeds exactly when there are at least as many arguments as placeholders, extra ones being no error. The result is then the reference substitution, and otherwise ErrTooFewParameters. |
| Connection.PositionalSubstitutes | connection.go:76-89 | The positional pass computes the reference substitution: the k-th `?` from the left becomes the k-th argument's text, and every other character is copied. When every argument formats but there are more `?` than arguments, it fails with ErrTooFewParameters. |
| Connection.KthPlaceholder | connection.go:76-88 | In the reference substitution, the `?` after `pre` takes the text at index Count(pre), and the text on either side is substituted as before. |
| Connection.Positional | connection.go:76-89 | A successful positional pass consumes exactly one argument per `?`, and never more than there are arguments. |
| Connection.PositionalFormatError | connection.go:82-84 | The first argument that a `?` takes and that does not format aborts the pass with that argument's own error, unwrapped. |
| Connection.NoPlaceholdersUnchanged | connection.go:77-90 | A template without `?` and without named arguments is returned unchanged. |
| Connection.NoPlaceholderExample | connection_test.go:336 | `SELECT 1` with no arguments interpolates to itself. |
| Connection.OnePlaceholder | connection.go:76-90 | One unnamed argument for a template with a single `?` puts that argument's text in the `?`'s place and changes nothing else. |
| Connection.IntParameterCase | connection_test.go:337 | `… = ?` with int64 20 becomes `… = 20`. |
| Connection.StringParameterCase | connection_test.go:338 | `… = ?` with the string yuno becomes `… = 'yuno'`. |
| Connection.ValuerParameterCase | connection_test.go:339 | A valuer whose Value returns the string yuno is written as `'yuno'`. |
| Connection.TooFewParametersCase | connection_test.go:341 | `… = ?` with no arguments fails with ErrTooFewParameters. |
| Connection.UnhandleableParameterCase | connection_test.go:342 | A `[]string` argument fails with the unknown-parameter error naming its type. |
| Connection.BareValueExample | bare.go:9-13 | `ago(?)` with the bare string 7d becomes `ago(7d)`. With the plain string 7d it becomes `ago('7d')`. |
| Connection.NamedPairs | connection.go:132-150 | Every token begins with the delimiter and is at least two characters long. Each failure is a duplicate name or a wrapped formatting error. |
| Connection.NamedPairsSpec | connection.go:132-150 | The named pass succeeds exactly when the named arguments have distinct names and all format. It then yields, for each named argument in order, its `$name$` token and its formatted text. Unnamed arguments are skipped. |
| Connection.NamedPairsRejects | connection.go:139-146 | A name given to two arguments, or a named argument that does not format, makes the named pass fail. |
| Connection.NamedPairsErrorPersists | connection.go:139-146 | Once a prefix of the arguments fails the named pass, all of them fail with the same error: the loop returns at the first failure. |
| Connection.NamedExpander | connection.go:149 | The replacer built from the pairs has no empty old string. |
| Connection.BuildNamedParamExpander | connection.go:132-150 | The loop with its `seen` map and growing argument list computes the named pass, whose meaning NamedPairsSpec states. |
| Connection.NamedErrorsComeFirst | connection.go:69-73 | An error of the named pass is the result whatever the template, even one with too few arguments for its `?`. |
| Connection.ExpandsToken | connection.go:147-149 | The expansion (connection.go:90) writes a named argument's formatted text in place of its token and resumes after it, provided no name contains the delimiter. |
| Connection.ExpandsTokenAfterPlainText | connection.go:147-149 | In the expansion (connection.go:90), text without the delimiter before a token is kept, and the token after it is expanded. |
| Connection.OtherTokenDoesNotMatch | connection.go:147 | Tokens of two distinct names without the delimiter never match at the same position. |
| Connection.OneNamedToken | connection.go:69-90 | A template whose only marker is one `$name$` token, with that one named argument, becomes the template with the token replaced by the argument's text. |
| Connection.NamedParameterCase | connection.go:143-147 | `$name$` given the named string yuno becomes `'yuno'`. |
| Connection.ExpansionReachesInsertedText | connection.go:90 | The expansion runs over the positional output. A `?` given the bare text `$x$`, with a named argument x of 5, becomes `5`. |
| Parameters.FormatParamFailures | connection.go:93-130 | formatParam fails exactly when the valuer fails, with the valuer's error, or when the resolved value is of no formattable kind, with the unknown-parameter error naming its type. |
| Parameters.Int64ParamRoundTrip | connection.go:106-107 | An int64 is written as its decimal text, which strconv.ParseInt reads back as the same int64. |
| Parameters.QuotingRules | connection.go:110-123 | Strings and byte slices are wrapped in single quotes with no escaping, an embedded quote included. Booleans are written as true and false. |
| Parameters.TimeParamRoundTrip | connection.go:124-125 | A time is written quoted in the timestamp layout. For a four-digit year, the text between the quotes parses back as the same time. |
| Parameters.BareValueFormatsVerbatim | bare.go:15-24 | BareStringValue's Value is its Bare field and never fails. The value carries the bare marker checked at connection.go:94-97, so it is written verbatim, while the same text as a plain string is quoted. |
| Parameters.ValuerRules | connection.go:94-104 | A valuer is resolved once: its string is formatted, and its error is returned. The valuer's own bare marker decides the quoting. A value that is itself a valuer, a bare string included, is not resolved again and is an unknown parameter. |
| Parameters.BareMarkerOnlyAffectsStrings | connection.go:94-97 | The bare marker changes nothing for a value other than a string. |
| StringsReplacer.Replacer.Match | connection.go:149 | The match at a position is the first pair in argument order whose old string starts the text, and none before it does. |
| StringsReplacer.ReplaceWithoutPairs | connection.go:149 | A replacer with no pairs is the identity. |
| StringsReplacer.ReplaceSkipsPlainText | connection.go:149 | Text lacking the first character of every old string is copied unchanged, and the replacement continues after it. |
| StringsReplacer.ReplaceAtMatch | connection.go:149 | Where a pair's old string starts the text and no earlier pair's does, its new string is written and the scan resumes after the old string, without overlapping matches. |
| Decoder.ScanColumn | rows.go:122-130 | An array descriptor wins and yields the payload of exactly this datum and descriptor. A descriptor with neither an array nor a scalar type is an error naming the column. Only an array column yields a payload. |
| Decoder.ScanArrayColumn | rows.go:137-139 | An array cell becomes the deferred payload holding exactly the given datum and descriptor. |
| Decoder.ScanScalarColumn | rows.go:141-198 | Each scalar type decodes to its kind of value. BOOLEAN is true exactly when the text is `true`. VARCHAR and both interval types give the text unchanged. DOUBLE gives the float parser's value or a parse error naming the text. INTEGER gives strconv.ParseInt's value or its error with the text. UNKNOWN yields nil without reading the text. An unsupported type is refused with an error naming it. |
| Decoder.BigintDecodesDecimalText | rows.go:143-154 | Every integer in decimal decodes under BIGINT to itself: as int64 when it fits, else as uint64 when it fits, else out of range. |
| Decoder.BigintBoundaries | rows.go:143-154 | As connection_test.go:49 and 119-121 expect, MaxUint64 decodes to the uint64 MaxUint64, MaxInt64 to an int64, and MaxUint64 + 1 is out of range. |
| Decoder.BigintRejectsNonNumericText | rows.go:144-147 | Text that is not a decimal integer is out of range under BIGINT. |
| Decoder.IntegerDecodesDecimalText | rows.go:155-160 | INTEGER decodes every int64 written in decimal back to itself. |
| Decoder.IntegerAgreesWithBigint | rows.go:143-160 | INTEGER succeeds exactly when BIGINT yields an int64, and then both give the same value. |
| Decoder.ScanDateText | rows.go:171-176 | DATE parses its text with the date layout (parseDate, rows.go:200-206), and a failure is a parse error naming that layout. |
| Decoder.ScanTimeText | rows.go:177-188 | TIMESTAMP and TIME parse their text with the timestamp layout (parseTime, rows.go:208-214), and a failure is a parse error naming that layout. |
| Decoder.TimestampAcceptsSpaceRun | rows.go:208-214 | Under TIMESTAMP and TIME, the date, any run of one or more spaces, and the clock of a valid time decode to that time, as the layout's space matches a run of spaces. |
| Decoder.TimestampDecodesFormattedTime | rows.go:177-188 | A time written in the timestamp layout decodes under TIMESTAMP and under TIME to the same civil time. |
| Decoder.TemporalExamples | connection_test.go:137-146 | `2010-01-01` under DATE is Unix 1262304000. `2010-01-01 12:34:56.000000000` under TIMESTAMP or TIME is Unix 1262349296. |
| Decoder.DecodedValueHasScanType | rows.go:54-85 | A scalar decoded by scanScalarColumn (rows.go:141-198) has the type its column reports, except that INTEGER reports int while yielding int64, and BIGINT reports int64 while yielding uint64 above the int64 range. |
| RowCursor.Rows.GetColumn | rows.go:47-52 | The descriptor at the index, present exactly when the index is below the number of columns. |
| RowCursor.Rows.ColumnTypeDatabaseTypeName | rows.go:87-89 | Through getTSDataType (rows.go:216-224), the column's scalar type name. It is UNKNOWN exactly when the index is past the columns, the column has no scalar type, or its type is UNKNOWN. |
| RowCursor.Rows.ColumnTypeScanType | rows.go:54-85 | anyType for an index past the columns, else the scan type of the column's type name. |
| RowCursor.ArrayColumnTypedAsUnknown | rows.go:54-89 | An array column's type name is UNKNOWN and its scan type is the nil type. |
| RowCursor.DecodedCellHasColumnScanType | rows.go:54-85 | A cell decoded under a scalar column has the scan type the cursor reports for that column, with the two integer exceptions. |
| RowCursor.Rows.Columns | rows.go:91-100 | On the first call, the names of all columns in order, which are then cached. Later calls return the cache unchanged. |
| RowCursor.Rows.Next | rows.go:106-120 | EOF exactly when pos is at the end, and then nothing changes. On success the first cells of dest hold the decoded row, pos grows by exactly one and the remaining slots are untouched. On a failing cell the error is returned and pos is unchanged. The earlier cells hold their decoded values, the failing cell's slot holds nil, and later slots are untouched. |
| RowCursor.DecodeInto | rows.go:110-117 | The cell loop of Next: each cell is decoded into its slot left to right. The first failing cell stops the loop with its index and error, after nil is written to its slot. |
| RowCursor.DecodeRowSpec | rows.go:110-117 | A row decodes exactly when every cell decodes, to each cell's value in order. Otherwise the result is the first failing cell and its error. |
| ArrayScanners.ScanAny | array.go:66-80 | The recursive method filling a fresh slice computes scanAny. |
| ArrayScanners.ScanAnyOfArray | array.go:66-80 | A datum without scalar text decodes exactly when all of its elements decode under the element descriptor. The result is then a list of the same length holding each element's value at its position. A failure is the first failing element's error. |
| ArrayScanners.ScanElementsSpec | array.go:72-78 | The first n elements decode to their values in order exactly when each of them does, and otherwise to the first failing element's error. |
| ArrayScanners.ScanElementsErrorPersists | array.go:75-77 | Once the first n elements fail, all of them fail with the same error. |
| ArrayScanners.ScanAnyOfEmptyArray | array.go:70-79 | A datum with neither scalar text nor elements decodes to the empty list. |
| ArrayScanners.ScanAnyPreservesShape | array.go:66-80 | A decoded value has the nesting of its datum: a leaf for scalar text, and for an array a list of the same length whose items match the elements. |
| ArrayScanners.NestedArrayExample | connection_test.go:245-248 | `[[1, 2], [3, 4]]` under an array of arrays of INTEGER decodes with its nesting kept, and its leaves are 1, 2, 3, 4. |
| ArrayScanners.IntegerArrayAgreesWithScanAny | array.go:108-128 | The integer array scanner and scanAny agree on an array of INTEGER elements. Both succeed on the same payloads, with the same integers in the same order, and both fail with the same error. |
| ArrayScanners.TextsSpec | array.go:93-96 | The texts of the elements are as many as the elements, each element's scalar text in order. |
| ArrayScanners.BooleansSpec | array.go:167-170 | One boolean per text, true exactly when the text is `true`. |
| ArrayScanners.TryMapSpec | array.go:115-122 | Parsing every text succeeds exactly when each text parses, with every value in order. Otherwise it fails with the error of the first text that does not parse. |
| ArrayScanners.CollectSpec | array.go:72-78 | Collecting results succeeds exactly when each result does, with every value in order. Otherwise it fails with the first error. |
| ArrayScanners.StringArray.Scan | array.go:86-102 | A payload sets the slice to its elements' texts in order. Any other source is refused with "cannot convert" and the slice is kept. |
| ArrayScanners.IntegerArray.Scan | array.go:108-128 | A payload whose texts all parse sets the slice to the parsed integers in order. The first parse failure is returned and the slice is kept. Any other source is refused and the slice is kept. |
| ArrayScanners.FloatArray.Scan | array.go:134-154 | The same policy as the integer scanner, with the float parser. |
| ArrayScanners.BooleanArray.Scan | array.go:160-176 | A payload sets element i to true exactly when its text is `true`. Any other source is refused and the slice is kept. |
| ArrayScanners.AnyArray.Scan | array.go:48-64 | E becomes the scanAny decoding of the payload when that succeeds. Any error, a non-payload source included, leaves E as it was. |
| ArrayScanners.Array | array.go:16-42 | A pointer to a typed slice gives the typed scanner over that very variable. A typed slice passed by value gives a typed scanner over a fresh copy. Any other pointer, slice or array is wrapped in an AnyArray. Anything else has no scanner. |
| Decimal.FormatParseIntRoundTrip | connection.go:106-107 | strconv.ParseInt reads back every int64 that strconv.FormatInt writes. |
| Decimal.ParseIntAgreesWithBigInt | rows.go:143-160 | strconv.ParseInt accepts exactly the texts that big.Int's SetString accepts with a value in the int64 range, and gives the same value. |
| Decimal.FormatIntBigIntRoundTrip | rows.go:143-154 | big.Int's SetString reads back every integer that FormatInt writes. |
| Decimal.AccumulateUintSpec | rows.go:156 | The digit loop of strconv.ParseUint succeeds exactly on digit strings whose value fits in 64 unsigned bits, and then yields that value. |
| CivilTime.FormatParseTimeRoundTrip | connection.go:124-125 | A valid time with a four-digit year survives Format followed by Parse with the timestamp layout, fraction included. |
| CivilTime.FormatParseDateRoundTrip | rows.go:200-206 | A valid date with a four-digit year survives being parsed with the date layout, as midnight of that date. |
| CivilTime.ParseDate | rows.go:200-206 | A parsed date is a valid calendar date at midnight. |
| CivilTime.SpacesBeforeClock | rows.go:208-214 | The date text, k ≥ 1 spaces and the clock text of a valid time with a four-digit year parse back as that time under the timestamp layout. |
| CivilTime.NoSpaceBeforeClock | rows.go:208-214 | The date text run straight into the clock text, with no space, does not parse under the timestamp layout. |
| CivilTime.ZeroFractionParses | rows.go:208-214 | A whole second followed by any number of zero fraction digits parses as that second. |
| CivilTime.TimestampTextExample | connection_test.go:139-146 | `2010-01-01 12:34:56.000000000` parses to 2010-01-01 12:34:56. |
| CivilTime.DateTextExample | connection_test.go:137-138 | `2010-01-01` parses to midnight of that day. |
| CivilTime.UnixSecondsExamples | connection_test.go:137-146 | Midnight of 2010-01-01 is Unix 1262304000, and 12:34:56 of that day is 1262349296. |

## Left out

- The transport: `conn.queryContext`, the pagination callback and `QueryPagesWithContext`
  (connection.go:51-67), and `Begin`/`Prepare`/`Close`. The buffered columns and rows are
  given to the `Rows` constructor.
- The JSON encoding of the deferred array payload (rows.go:138, array.go:52 and the other
  `json.Unmarshal` calls). The payload is the (datum, descriptor) pair itself, so the encoding
  round-trips and its decode errors do not arise.
- Floating point. `strconv.ParseFloat` and `strconv.FormatFloat` are the two fields of a
  `FloatCodec` parameter, and nothing is proved about them.
- The general Go time layout machinery. Only the two fixed layouts are modelled, read and
  written in UTC: `2006-01-02` and `2006-01-02 15:04:05.999999999`. A time parameter is known
  by its civil fields in its own location, with no zone conversion.
- Reflection in `Array`: `reflect.TypeOf(x).Kind()` is a closed enumeration of shapes
  (`ArrayScanners.Dest`, `ArrayScanners.Kind`). The copy made for a slice passed by value is a
  fresh scanner object holding the same elements.
- ArrayScanners.IntegerArray.Scan: Go's `int` is taken to be 64 bits wide, so `int(parsed)`
  is the identity.
- Null cells and other nil pointers. Scalar text under a type that reads it, a column's name
  where it is reported, and a descriptor for every cell of a row are preconditions, because
  the code dereferences them. Null-to-nil decoding is not claimed.
- Error messages. The `%#v`, `%T` and `%q` texts are structured `Values.Error` values. A
  failing `driver.Valuer` carries its message, and `fmt.Errorf`'s `%w` wrapping is the
  `CannotFormatParameter` constructor.
- Characters are Dafny `char` values. The rune iteration over invalid UTF-8 and byte-level
  encoding are not modelled.
- StringsReplacer.Replacer.Replace: defined for non-empty old strings only, which is all the
  named expansion creates. `strings.Replacer`'s handling of empty old strings is not modelled.
- Connection.IntParameterCase, StringParameterCase, ValuerParameterCase,
  TooFewParametersCase, UnhandleableParameterCase: stated for any text before the `?` that has
  no `?` of its own, rather than for the tests' literal WHERE clauses.
- ArrayScanners.NestedArrayExample: its leaves are int64 values as `scanScalarColumn` yields
  them. The `int` leaves that connection_test.go:305 expects are not claimed.
- The remaining files of the repository (config.go, dsn.go, driver.go, connector.go,
  statement.go, the cmd programs and the test harnesses) are not part of this model: they
  handle DSNs, credentials, registration and live service calls.
