/** Query parameters and formatParam, the rule that writes one parameter into a query. */
module Parameters {
  import opened Wrappers
  import opened Decimal
  import opened CivilTime
  import opened Values
  import opened Bare

  /** A time.Time, known by its civil fields in its own location. */
  type Instant = t: DateTime | Valid(t) witness DateTime(1970, 1, 1, 0, 0, 0, 0)

  /** A parameter value as the driver receives it. A user type is a driver.Valuer, with the
      outcome of its Value method, or any other Go value; either may also carry the bare-value
      marker method. */
  datatype Param =
    | PInt64(i: int64)
    | PFloat64(f: Float64)
    | PBool(b: bool)
    | PBytes(bytes: string)
    | PString(s: string)
    | PTime(t: Instant)
    | PBare(bare: BareStringValue)
    | PValuer(valuerType: string, valuerIsBare: bool, resolved: Result<Param, string>)
    | POther(otherType: string, otherIsBare: bool)

  /** The Go type name of a parameter, as `%T` prints it. */
  function ParamTypeName(p: Param): string {
    match p
    case PInt64(_) => "int64"
    case PFloat64(_) => "float64"
    case PBool(_) => "bool"
    case PBytes(_) => "[]uint8"
    case PString(_) => "string"
    case PTime(_) => "time.Time"
    case PBare(_) => "timestreamdriver.BareStringValue"
    case PValuer(name, _, _) => name
    case POther(name, _) => name
  }

  /** The bareValue marker: BareStringValue and any user type with the marker method. */
  predicate IsBareValue(p: Param) {
    p.PBare? || (p.PValuer? && p.valuerIsBare) || (p.POther? && p.otherIsBare)
  }

  /** The driver.Valuer step: a valuer is replaced, once, by what its Value method returns;
      other values are kept. */
  function Resolve(p: Param): Result<Param, Error> {
    match p
    case PBare(b) =>
      (match b.Value()
       case Ok(s) => Ok(PString(s))
       case Err(e) => Err(e))
    case PValuer(_, _, Ok(v)) => Ok(v)
    case PValuer(_, _, Err(message)) => Err(ValuerFailed(message))
    case _ => Ok(p)
  }

  function Quoted(s: string): string {
    "'" + s + "'"
  }

  /** formatParam: the text written for one parameter. The bare marker is read on the value
      as given, before the valuer step; only a string is affected by it. */
  function FormatParam(p: Param, floats: FloatCodec): Result<string, Error> {
    var shouldQuote := !IsBareValue(p);
    var v :- Resolve(p);
    match v
    case PInt64(i) => Ok(FormatInt(i))
    case PFloat64(f) => Ok(floats.format(f))
    case PBool(b) => Ok(if b then "true" else "false")
    case PBytes(bytes) => Ok(Quoted(bytes))
    case PString(s) => Ok(if shouldQuote then Quoted(s) else s)
    case PTime(t) => Ok(Quoted(FormatTime(t)))
    case _ => Err(UnknownParameter(ParamTypeName(v)))
  }

  /** The kinds formatParam writes. */
  predicate Formattable(v: Param) {
    v.PInt64? || v.PFloat64? || v.PBool? || v.PBytes? || v.PString? || v.PTime?
  }

  /** formatParam fails exactly when the valuer step fails, with the valuer's error, or when
      the resolved value is of no formattable kind, with the unknown-parameter error naming
      its type. */
  lemma FormatParamFailures(p: Param, floats: FloatCodec)
    ensures FormatParam(p, floats).Err?
            <==> Resolve(p).Err? || !Formattable(Resolve(p).value)
    ensures Resolve(p).Err? ==> FormatParam(p, floats) == Err(Resolve(p).error)
    ensures Resolve(p).Ok? && !Formattable(Resolve(p).value) ==>
              FormatParam(p, floats) == Err(UnknownParameter(ParamTypeName(Resolve(p).value)))
  {
  }

  /** An int64 parameter is written as its decimal text, which reads back as the same int64. */
  lemma Int64ParamRoundTrip(i: int64, floats: FloatCodec)
    ensures FormatParam(PInt64(i), floats) == Ok(FormatInt(i))
    ensures ParseInt(FormatParam(PInt64(i), floats).value) == Ok(i)
  {
    FormatParseIntRoundTrip(i);
  }

  /** A time parameter is written quoted in the timestamp layout; for a four-digit year the
      quoted text parses back as the same time. */
  lemma TimeParamRoundTrip(t: Instant, floats: FloatCodec)
    requires 0 <= t.year < 10000
    ensures var r := FormatParam(PTime(t), floats);
            && r == Ok(Quoted(FormatTime(t)))
            && |r.value| >= 2 && r.value[0] == '\'' && r.value[|r.value| - 1] == '\''
            && ParseTime(r.value[1..|r.value| - 1]) == Some(t)
  {
    var body := FormatTime(t);
    TimeParamText(t, body, floats);
    QuotedText(body);
    FormatParseTimeRoundTrip(t);
  }

  lemma TimeParamText(t: Instant, body: string, floats: FloatCodec)
    requires body == FormatTime(t)
    ensures FormatParam(PTime(t), floats) == Ok(Quoted(body))
  {
  }

  /** A quoted text starts and ends with a quote, and the text is what lies between them. */
  lemma QuotedText(s: string)
    ensures var q := Quoted(s);
            |q| == |s| + 2 && q[0] == '\'' && q[|q| - 1] == '\'' && q[1..|q| - 1] == s
  {
    var q := Quoted(s);
    assert q[1..|q| - 1] == s;
  }

  /** Strings and byte slices are wrapped in single quotes with no escaping, so a quote
      inside the text is written as is; booleans are written as true and false. */
  lemma QuotingRules(s: string, floats: FloatCodec)
    ensures FormatParam(PString(s), floats) == Ok("'" + s + "'")
    ensures FormatParam(PBytes(s), floats) == Ok("'" + s + "'")
    ensures FormatParam(PString("it's"), floats) == Ok("'it's'")
    ensures FormatParam(PBool(true), floats) == Ok("true")
    ensures FormatParam(PBool(false), floats) == Ok("false")
  {
    assert Quoted("it's") == "'it's'";
  }

  /** A bare string is written verbatim, while the same text as a plain string is quoted;
      Value of a bare string is its Bare field and never fails. */
  lemma BareValueFormatsVerbatim(b: BareStringValue, floats: FloatCodec)
    ensures b.Value() == Ok(b.Bare)
    ensures IsBareValue(PBare(b))
    ensures FormatParam(PBare(b), floats) == Ok(b.Bare)
    ensures FormatParam(PString(b.Bare), floats) == Ok(Quoted(b.Bare))
  {
  }

  /** The valuer step: the valuer's value is formatted once, its error is propagated, and
      the bare marker of the valuer itself (not of its value) decides the quoting. A valuer
      whose value is itself a valuer is not resolved again and is an unknown parameter. */
  lemma ValuerRules(name: string, bare: bool, s: string, message: string, inner: Param, floats: FloatCodec)
    ensures FormatParam(PValuer(name, bare, Ok(PString(s))), floats) == Ok(if bare then s else Quoted(s))
    ensures FormatParam(PValuer(name, bare, Err(message)), floats) == Err(ValuerFailed(message))
    ensures inner.PValuer? ==>
              FormatParam(PValuer(name, bare, Ok(inner)), floats) == Err(UnknownParameter(inner.valuerType))
    ensures FormatParam(PValuer(name, bare, Ok(PBare(BareStringValue(s)))), floats)
            == Err(UnknownParameter("timestreamdriver.BareStringValue"))
  {
  }

  /** The bare marker on a value of another kind changes nothing: only strings are affected. */
  lemma BareMarkerOnlyAffectsStrings(name: string, v: Param, floats: FloatCodec)
    requires Formattable(v) && !v.PString?
    ensures FormatParam(PValuer(name, true, Ok(v)), floats) == FormatParam(PValuer(name, false, Ok(v)), floats)
    ensures FormatParam(PValuer(name, true, Ok(v)), floats) == FormatParam(v, floats)
  {
  }
}
