/** The values the driver converts between: the self-describing wire shapes of the query
    service (column descriptors and datums), the native values a row yields, and the errors
    of the conversion core. */
module Values {
  import opened Wrappers
  import opened Decimal
  import opened CivilTime

  // Scalar type names of the query service.
  const ScalarTypeVarchar: string := "VARCHAR"
  const ScalarTypeBoolean: string := "BOOLEAN"
  const ScalarTypeBigint: string := "BIGINT"
  const ScalarTypeDouble: string := "DOUBLE"
  const ScalarTypeTimestamp: string := "TIMESTAMP"
  const ScalarTypeDate: string := "DATE"
  const ScalarTypeTime: string := "TIME"
  const ScalarTypeIntervalDayToSecond: string := "INTERVAL_DAY_TO_SECOND"
  const ScalarTypeIntervalYearToMonth: string := "INTERVAL_YEAR_TO_MONTH"
  const ScalarTypeUnknown: string := "UNKNOWN"
  const ScalarTypeInteger: string := "INTEGER"

  /** A column descriptor: its optional name and its type, which names a scalar type, an
      element descriptor for an array column, or (malformed) neither. */
  datatype ColumnInfo = ColumnInfo(name: Option<string>,
                                   scalarType: Option<string>,
                                   arrayColumnInfo: Option<ColumnInfo>)

  /** One wire value: scalar text, or the elements of an array; a null cell carries the
      null flag and neither of the other two. */
  datatype Datum = Datum(scalarValue: Option<string>, arrayValue: seq<Datum>, nullValue: Option<bool>)

  /** A row is the datums of its cells, in column order. */
  type Row = seq<Datum>

  /** A 64-bit float, known only by its bits: float text is read and written by the platform's
      float conversions, which the model receives as a FloatCodec. */
  datatype Float64 = Float64(bits: uint64)

  /** strconv.ParseFloat(_, 64), where None is a parse error, and
      strconv.FormatFloat(_, 'f', -1, 64). */
  datatype FloatCodec = FloatCodec(parse: string -> Option<Float64>, format: Float64 -> string)

  /** The deferred array payload: an array datum paired with its column descriptor. */
  datatype ColumnDatum = ColumnDatum(datum: Datum, columnInfo: ColumnInfo)

  /** A native value as a row or an array scanner yields it. */
  datatype Value =
    | Nil
    | Int64Value(i: int64)
    | Uint64Value(u: uint64)
    | Float64Value(f: Float64)
    | BoolValue(b: bool)
    | StringValue(s: string)
    | TimeValue(t: DateTime)
    | Payload(cd: ColumnDatum)
    | List(items: seq<Value>)

  /** The native types a column reports as its scan type. */
  datatype NativeType = AnyType | IntType | Int64Type | Uint64Type | Float64Type | BoolType
                      | StringType | NullType | TimeType | BytesType | ListType

  /** The Go type of a value as `%T` prints it. */
  function TypeName(v: Value): string {
    match v
    case Nil => "<nil>"
    case Int64Value(_) => "int64"
    case Uint64Value(_) => "uint64"
    case Float64Value(_) => "float64"
    case BoolValue(_) => "bool"
    case StringValue(_) => "string"
    case TimeValue(_) => "time.Time"
    case Payload(_) => "[]uint8"
    case List(_) => "[]interface {}"
  }

  /** The native type of a decoded value (nil has the nil type). */
  function TypeOf(v: Value): NativeType {
    match v
    case Nil => NullType
    case Int64Value(_) => Int64Type
    case Uint64Value(_) => Uint64Type
    case Float64Value(_) => Float64Type
    case BoolValue(_) => BoolType
    case StringValue(_) => StringType
    case TimeValue(_) => TimeType
    case Payload(_) => BytesType
    case List(_) => ListType
  }

  datatype Error =
    | TooFewParameters
    | DuplicateNamedParameter(name: string)
    | CannotFormatParameter(cause: Error)
    | UnknownParameter(typeName: string)
    | ValuerFailed(message: string)
    | OutOfRange
    | ParseIntError(kind: NumErrorKind, input: string)
    | ParseFloatError(input: string)
    | TimeParseError(layout: string, input: string)
    | CannotConvertScalarType(scalarType: string)
    | ColumnNotHandled(name: string)
    | CannotConvert(typeName: string)
}
