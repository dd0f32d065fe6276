/** The value decoder of the row cursor: one datum and its column descriptor become a native
    value, a deferred array payload, or an error. */
module Decoder {
  import opened Wrappers
  import opened Decimal
  import opened CivilTime
  import opened Values

  /** The scalar types whose decoding reads the datum's scalar text. */
  predicate ReadsScalarText(t: string) {
    t == ScalarTypeBigint || t == ScalarTypeInteger || t == ScalarTypeVarchar
    || t == ScalarTypeBoolean || t == ScalarTypeDouble || t == ScalarTypeDate
    || t == ScalarTypeTimestamp || t == ScalarTypeTime
    || t == ScalarTypeIntervalDayToSecond || t == ScalarTypeIntervalYearToMonth
  }

  /** The scalar types that decode to text unchanged. */
  predicate IsTextType(t: string) {
    t == ScalarTypeVarchar || t == ScalarTypeIntervalDayToSecond || t == ScalarTypeIntervalYearToMonth
  }

  /** The decoder dereferences the scalar text for every type that reads it: that text must be
      present. A null cell is only decodable under UNKNOWN or an unsupported type. */
  predicate ScalarDecodable(d: Datum, t: string) {
    ReadsScalarText(t) ==> d.scalarValue.Some?
  }

  /** What scanScalarColumn needs of its inputs: a scalar type, and the text it reads. */
  predicate ScalarColumnDecodable(d: Datum, c: ColumnInfo) {
    c.scalarType.Some? && ScalarDecodable(d, c.scalarType.value)
  }

  /** What scanColumn needs of its inputs: a decodable scalar column, an array column, or a
      name to report when the column has neither. */
  predicate ColumnDecodable(d: Datum, c: ColumnInfo) {
    if c.arrayColumnInfo.Some? then true
    else if c.scalarType.Some? then ScalarDecodable(d, c.scalarType.value)
    else c.name.Some?
  }

  /** BIGINT: an arbitrary-precision decimal narrowed to int64 if it fits, else to uint64 if it
      fits; anything else, unparsable text included, is out of range. */
  function DecodeBigint(text: string): Result<Value, Error> {
    match ParseBigInt(text)
    case None => Err(OutOfRange)
    case Some(i) =>
      if MinInt64 <= i <= MaxInt64 then Ok(Int64Value(i))
      else if 0 <= i <= MaxUint64 then Ok(Uint64Value(i))
      else Err(OutOfRange)
  }

  /** strconv.ParseInt(text, 10, 64), its failure reported with the kind and the text. */
  function IntegerText(text: string): Result<int64, Error> {
    match ParseInt(text)
    case Ok(i) => Ok(i)
    case Err(kind) => Err(ParseIntError(kind, text))
  }

  /** strconv.ParseFloat(text, 64), its failure reported with the text. */
  function FloatText(text: string, floats: FloatCodec): Result<Float64, Error> {
    match floats.parse(text)
    case Some(f) => Ok(f)
    case None => Err(ParseFloatError(text))
  }

  /** The value kind each scalar type decodes to. */
  predicate HasDecodedKind(v: Value, t: string) {
    if t == ScalarTypeBigint then v.Int64Value? || v.Uint64Value?
    else if t == ScalarTypeInteger then v.Int64Value?
    else if t == ScalarTypeDouble then v.Float64Value?
    else if t == ScalarTypeBoolean then v.BoolValue?
    else if IsTextType(t) then v.StringValue?
    else if t == ScalarTypeDate || t == ScalarTypeTime || t == ScalarTypeTimestamp then
      v.TimeValue? && Valid(v.t)
    else v.Nil?
  }

  /** scanScalarColumn: decode a scalar datum by the column's scalar type. */
  function ScanScalarColumn(d: Datum, c: ColumnInfo, floats: FloatCodec): (r: Result<Value, Error>)
    requires ScalarColumnDecodable(d, c)
    ensures r.Ok? ==> HasDecodedKind(r.value, c.scalarType.value)
    ensures c.scalarType.value == ScalarTypeUnknown ==> r == Ok(Nil)
    ensures !ReadsScalarText(c.scalarType.value) && c.scalarType.value != ScalarTypeUnknown
            ==> r == Err(CannotConvertScalarType(c.scalarType.value))
    ensures c.scalarType.value == ScalarTypeBoolean ==> r == Ok(BoolValue(d.scalarValue.value == "true"))
    ensures IsTextType(c.scalarType.value) ==> r == Ok(StringValue(d.scalarValue.value))
    ensures c.scalarType.value == ScalarTypeDouble ==>
              var parsed := floats.parse(d.scalarValue.value);
              && (parsed.Some? ==> r == Ok(Float64Value(parsed.value)))
              && (parsed.None? ==> r == Err(ParseFloatError(d.scalarValue.value)))
    ensures c.scalarType.value == ScalarTypeInteger ==>
              var parsed := ParseInt(d.scalarValue.value);
              && (parsed.Ok? ==> r == Ok(Int64Value(parsed.value)))
              && (parsed.Err? ==> r == Err(ParseIntError(parsed.error, d.scalarValue.value)))
  {
    var t := c.scalarType.value;
    if t == ScalarTypeBigint then DecodeBigint(d.scalarValue.value)
    else if t == ScalarTypeInteger then
      match IntegerText(d.scalarValue.value)
      case Ok(i) => Ok(Int64Value(i))
      case Err(e) => Err(e)
    else if t == ScalarTypeVarchar then Ok(StringValue(d.scalarValue.value))
    else if t == ScalarTypeBoolean then Ok(BoolValue(d.scalarValue.value == "true"))
    else if t == ScalarTypeDouble then
      match FloatText(d.scalarValue.value, floats)
      case Ok(f) => Ok(Float64Value(f))
      case Err(e) => Err(e)
    else if t == ScalarTypeDate then
      match ParseDate(d.scalarValue.value)
      case Some(dt) => Ok(TimeValue(dt))
      case None => Err(TimeParseError(DateLayout, d.scalarValue.value))
    else if t == ScalarTypeTimestamp || t == ScalarTypeTime then
      match ParseTime(d.scalarValue.value)
      case Some(dt) => Ok(TimeValue(dt))
      case None => Err(TimeParseError(TimeLayout, d.scalarValue.value))
    else if t == ScalarTypeIntervalDayToSecond || t == ScalarTypeIntervalYearToMonth then
      Ok(StringValue(d.scalarValue.value))
    else if t == ScalarTypeUnknown then Ok(Nil)
    else Err(CannotConvertScalarType(t))
  }

  /** scanArrayColumn: an array cell is not decoded; it becomes the deferred payload. */
  function ScanArrayColumn(d: Datum, c: ColumnInfo): (r: Result<Value, Error>)
    ensures r.Ok? && r.value.Payload? && r.value.cd.datum == d && r.value.cd.columnInfo == c
  {
    Ok(Payload(ColumnDatum(d, c)))
  }

  /** scanColumn: an array descriptor wins over a scalar one; a descriptor with neither is an
      error naming the column. */
  function ScanColumn(d: Datum, c: ColumnInfo, floats: FloatCodec): (r: Result<Value, Error>)
    requires ColumnDecodable(d, c)
    ensures c.arrayColumnInfo.Some? ==> r == Ok(Payload(ColumnDatum(d, c)))
    ensures c.arrayColumnInfo.None? && c.scalarType.None? ==> r == Err(ColumnNotHandled(c.name.value))
    ensures r.Ok? && r.value.Payload? ==> c.arrayColumnInfo.Some?
  {
    if c.arrayColumnInfo.Some? then ScanArrayColumn(d, c)
    else if c.scalarType.Some? then ScanScalarColumn(d, c, floats)
    else Err(ColumnNotHandled(c.name.value))
  }

  /** getTSDataType: the scalar type name, or UNKNOWN for a missing column or a column without
      a scalar type (an array column). */
  function GetTSDataType(ci: Option<ColumnInfo>): string {
    if ci.None? then ScalarTypeUnknown
    else if ci.value.scalarType.Some? then ci.value.scalarType.value
    else ScalarTypeUnknown
  }

  /** The scan type ColumnTypeScanType reports for a scalar type name. */
  function ScanTypeOf(t: string): NativeType {
    if t == ScalarTypeBigint then Int64Type
    else if t == ScalarTypeBoolean then BoolType
    else if t == ScalarTypeDate then TimeType
    else if t == ScalarTypeDouble then Float64Type
    else if t == ScalarTypeInteger then IntType
    else if t == ScalarTypeIntervalDayToSecond then StringType
    else if t == ScalarTypeIntervalYearToMonth then StringType
    else if t == ScalarTypeTime then TimeType
    else if t == ScalarTypeTimestamp then TimeType
    else if t == ScalarTypeVarchar then StringType
    else if t == ScalarTypeUnknown then NullType
    else AnyType
  }

  function ScalarDatum(text: string): Datum {
    Datum(Some(text), [], None)
  }

  function ScalarColumn(t: string): ColumnInfo {
    ColumnInfo(None, Some(t), None)
  }

  /** Every integer written in decimal decodes under BIGINT to itself, as int64 when it fits,
      else as uint64 when it fits, and is out of range otherwise. */
  lemma {:induction false} BigintDecodesDecimalText(n: int, floats: FloatCodec)
    ensures var r := ScanScalarColumn(ScalarDatum(FormatInt(n)), ScalarColumn(ScalarTypeBigint), floats);
            && (MinInt64 <= n <= MaxInt64 ==> r == Ok(Int64Value(n)))
            && (MaxInt64 < n <= MaxUint64 ==> r == Ok(Uint64Value(n)))
            && (n < MinInt64 || MaxUint64 < n ==> r == Err(OutOfRange))
  {
    FormatIntBigIntRoundTrip(n);
  }

  /** Text that is not a decimal integer is out of range under BIGINT. */
  lemma BigintRejectsNonNumericText(text: string, floats: FloatCodec)
    requires ParseBigInt(text).None?
    ensures ScanScalarColumn(ScalarDatum(text), ScalarColumn(ScalarTypeBigint), floats) == Err(OutOfRange)
  {
  }

  /** The largest uint64, as strconv.FormatUint writes it, decodes under BIGINT to a uint64;
      the largest int64 to an int64; one past the largest uint64 is out of range. */
  lemma BigintBoundaries(floats: FloatCodec)
    ensures ScanScalarColumn(ScalarDatum(FormatInt(MaxUint64)), ScalarColumn(ScalarTypeBigint), floats)
            == Ok(Uint64Value(MaxUint64))
    ensures ScanScalarColumn(ScalarDatum(FormatInt(MaxInt64)), ScalarColumn(ScalarTypeBigint), floats)
            == Ok(Int64Value(MaxInt64))
    ensures ScanScalarColumn(ScalarDatum(FormatInt(MaxUint64 + 1)), ScalarColumn(ScalarTypeBigint), floats)
            == Err(OutOfRange)
  {
    BigintDecodesDecimalText(MaxUint64, floats);
    BigintDecodesDecimalText(MaxInt64, floats);
    BigintDecodesDecimalText(MaxUint64 + 1, floats);
  }

  /** INTEGER decodes every int64 written in decimal back to itself. */
  lemma IntegerDecodesDecimalText(i: int64, floats: FloatCodec)
    ensures ScanScalarColumn(ScalarDatum(FormatInt(i)), ScalarColumn(ScalarTypeInteger), floats)
            == Ok(Int64Value(i))
  {
    FormatParseIntRoundTrip(i);
  }

  /** INTEGER and BIGINT agree: INTEGER succeeds exactly when BIGINT yields an int64, and
      then both yield the same value. */
  lemma IntegerAgreesWithBigint(text: string, floats: FloatCodec)
    ensures var asInteger := ScanScalarColumn(ScalarDatum(text), ScalarColumn(ScalarTypeInteger), floats);
            var asBigint := ScanScalarColumn(ScalarDatum(text), ScalarColumn(ScalarTypeBigint), floats);
            && (asInteger.Ok? <==> asBigint.Ok? && asBigint.value.Int64Value?)
            && (asInteger.Ok? ==> asInteger == asBigint)
  {
    ParseIntAgreesWithBigInt(text);
  }

  /** DATE reads its text with the date layout. */
  lemma ScanDateText(text: string, floats: FloatCodec)
    ensures var r := ScanScalarColumn(ScalarDatum(text), ScalarColumn(ScalarTypeDate), floats);
            && (ParseDate(text).Some? ==> r == Ok(TimeValue(ParseDate(text).value)))
            && (ParseDate(text).None? ==> r == Err(TimeParseError(DateLayout, text)))
  {
  }

  /** TIMESTAMP and TIME read their text with the timestamp layout. */
  lemma ScanTimeText(text: string, t: string, floats: FloatCodec)
    requires t == ScalarTypeTimestamp || t == ScalarTypeTime
    ensures var r := ScanScalarColumn(ScalarDatum(text), ScalarColumn(t), floats);
            && (ParseTime(text).Some? ==> r == Ok(TimeValue(ParseTime(text).value)))
            && (ParseTime(text).None? ==> r == Err(TimeParseError(TimeLayout, text)))
  {
  }

  /** A timestamp written with the timestamp layout decodes under TIMESTAMP and TIME to the
      same civil time. */
  lemma {:induction false} TimestampDecodesFormattedTime(t: DateTime, floats: FloatCodec)
    requires Valid(t) && 0 <= t.year < 10000
    ensures ScanScalarColumn(ScalarDatum(FormatTime(t)), ScalarColumn(ScalarTypeTimestamp), floats)
            == Ok(TimeValue(t))
    ensures ScanScalarColumn(ScalarDatum(FormatTime(t)), ScalarColumn(ScalarTypeTime), floats)
            == Ok(TimeValue(t))
  {
    FormatParseTimeRoundTrip(t);
    ScanTimeText(FormatTime(t), ScalarTypeTimestamp, floats);
    ScanTimeText(FormatTime(t), ScalarTypeTime, floats);
  }

  /** Under TIMESTAMP and TIME, any run of one or more spaces may separate the date from the
      clock. */
  lemma TimestampAcceptsSpaceRun(t: DateTime, k: nat, floats: FloatCodec)
    requires Valid(t) && 0 <= t.year < 10000 && k >= 1
    ensures ScanScalarColumn(ScalarDatum(DateText(t) + Spaces(k) + ClockText(t)), ScalarColumn(ScalarTypeTimestamp), floats)
            == Ok(TimeValue(t))
    ensures ScanScalarColumn(ScalarDatum(DateText(t) + Spaces(k) + ClockText(t)), ScalarColumn(ScalarTypeTime), floats)
            == Ok(TimeValue(t))
  {
    var text := DateText(t) + Spaces(k) + ClockText(t);
    SpacesBeforeClock(t, k);
    ScanTimeText(text, ScalarTypeTimestamp, floats);
    ScanTimeText(text, ScalarTypeTime, floats);
  }

  /** The dates and times of the scalar-decoding scenario: "2010-01-01" under DATE is Unix
      1262304000, and "2010-01-01 12:34:56.000000000" under TIMESTAMP or TIME is Unix
      1262349296. */
  lemma {:induction false} TemporalExamples(floats: FloatCodec)
    ensures ScanScalarColumn(ScalarDatum("2010-01-01"), ScalarColumn(ScalarTypeDate), floats)
            == Ok(TimeValue(DateTime(2010, 1, 1, 0, 0, 0, 0)))
    ensures ScanScalarColumn(ScalarDatum("2010-01-01 12:34:56.000000000"), ScalarColumn(ScalarTypeTimestamp), floats)
            == Ok(TimeValue(DateTime(2010, 1, 1, 12, 34, 56, 0)))
    ensures ScanScalarColumn(ScalarDatum("2010-01-01 12:34:56.000000000"), ScalarColumn(ScalarTypeTime), floats)
            == Ok(TimeValue(DateTime(2010, 1, 1, 12, 34, 56, 0)))
    ensures UnixSeconds(DateTime(2010, 1, 1, 0, 0, 0, 0)) == 1262304000
    ensures UnixSeconds(DateTime(2010, 1, 1, 12, 34, 56, 0)) == 1262349296
  {
    var stamp := "2010-01-01 12:34:56.000000000";
    DateTextExample();
    ScanDateText("2010-01-01", floats);
    TimestampTextExample();
    ScanTimeText(stamp, ScalarTypeTimestamp, floats);
    ScanTimeText(stamp, ScalarTypeTime, floats);
    UnixSecondsExamples();
  }

  /** What a successfully decoded scalar means for the reported scan type: the decoded value
      has exactly the reported type, except that INTEGER reports int while yielding an int64,
      and BIGINT reports int64 while yielding a uint64 for values above the int64 range. */
  lemma DecodedValueHasScanType(d: Datum, c: ColumnInfo, floats: FloatCodec)
    requires ScalarColumnDecodable(d, c) && ScanScalarColumn(d, c, floats).Ok?
    requires ReadsScalarText(c.scalarType.value) || c.scalarType.value == ScalarTypeUnknown
    ensures var v := ScanScalarColumn(d, c, floats).value;
            var t := c.scalarType.value;
            || TypeOf(v) == ScanTypeOf(t)
            || (t == ScalarTypeInteger && ScanTypeOf(t) == IntType && TypeOf(v) == Int64Type)
            || (t == ScalarTypeBigint && ScanTypeOf(t) == Int64Type && TypeOf(v) == Uint64Type)
  {
    var v := ScanScalarColumn(d, c, floats).value;
    var t := c.scalarType.value;
    assert HasDecodedKind(v, t);
    if t == ScalarTypeBigint {
      assert v.Int64Value? || v.Uint64Value?;
    } else if t == ScalarTypeInteger {
      assert v.Int64Value?;
    } else if t == ScalarTypeDouble {
      assert v.Float64Value?;
    } else if t == ScalarTypeBoolean {
      assert v.BoolValue?;
    } else if IsTextType(t) {
      assert v.StringValue?;
    } else if t == ScalarTypeDate || t == ScalarTypeTime || t == ScalarTypeTimestamp {
      assert v.TimeValue?;
    } else {
      assert t == ScalarTypeUnknown && v.Nil?;
    }
  }
}
