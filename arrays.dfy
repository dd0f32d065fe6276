/** The array scanners: the recursive generic decoder of a deferred array payload, the typed
    scanners for string, integer, float and boolean arrays, and the Array dispatch that picks
    a scanner for a destination. */
module ArrayScanners {
  import opened Wrappers
  import opened Decimal
  import opened Values
  import opened Decoder

  // ---------------------------------------------------------------------------------------
  // scanAny

  /** What scanAny needs: a descriptor at every level it visits, a scalar type wherever the
      datum carries scalar text, and the element descriptor passed down to every element. */
  predicate AnyDecodable(d: Datum, c: Option<ColumnInfo>)
    decreases d
  {
    && c.Some?
    && if d.scalarValue.Some? then c.value.scalarType.Some?
       else forall i | 0 <= i < |d.arrayValue| :: AnyDecodable(d.arrayValue[i], c.value.arrayColumnInfo)
  }

  /** scanAny: a datum with scalar text is decoded by its own descriptor; otherwise its
      elements are decoded, left to right, by the element descriptor, and the first error
      aborts. */
  function ScanAnyValue(d: Datum, c: Option<ColumnInfo>, floats: FloatCodec): Result<Value, Error>
    requires AnyDecodable(d, c)
    decreases d, |d.arrayValue| + 1
  {
    if d.scalarValue.Some? then ScanScalarColumn(d, c.value, floats)
    else
      match ScanElements(d, c.value.arrayColumnInfo, |d.arrayValue|, floats)
      case Ok(items) => Ok(List(items))
      case Err(e) => Err(e)
  }

  /** The first n elements of an array datum decoded by scanAny, or the first error. */
  function ScanElements(d: Datum, elem: Option<ColumnInfo>, n: nat, floats: FloatCodec): Result<seq<Value>, Error>
    requires n <= |d.arrayValue|
    requires forall i | 0 <= i < |d.arrayValue| :: AnyDecodable(d.arrayValue[i], elem)
    decreases d, n
  {
    if n == 0 then Ok([])
    else
      match ScanElements(d, elem, n - 1, floats)
      case Err(e) => Err(e)
      case Ok(items) =>
        match ScanAnyValue(d.arrayValue[n - 1], elem, floats)
        case Ok(v) => Ok(items + [v])
        case Err(e) => Err(e)
  }

  /** Each of the first n elements decoded on its own. */
  function ElementResults(d: Datum, elem: Option<ColumnInfo>, n: nat, floats: FloatCodec): (rs: seq<Result<Value, Error>>)
    requires n <= |d.arrayValue|
    requires forall i | 0 <= i < |d.arrayValue| :: AnyDecodable(d.arrayValue[i], elem)
  {
    seq(n, i requires 0 <= i < n => ScanAnyValue(d.arrayValue[i], elem, floats))
  }

  /** Decoding the first n elements collects their separate results, left to right. */
  lemma {:induction false} ScanElementsCollects(d: Datum, elem: Option<ColumnInfo>, n: nat, floats: FloatCodec)
    requires n <= |d.arrayValue|
    requires forall i | 0 <= i < |d.arrayValue| :: AnyDecodable(d.arrayValue[i], elem)
    ensures ScanElements(d, elem, n, floats) == Collect(ElementResults(d, elem, n, floats))
  {
    var rs := ElementResults(d, elem, n, floats);
    if n > 0 {
      ScanElementsCollects(d, elem, n - 1, floats);
      assert rs[..n - 1] == ElementResults(d, elem, n - 1, floats);
      assert rs[n - 1] == ScanAnyValue(d.arrayValue[n - 1], elem, floats);
    }
  }

  /** The first n elements decode exactly when each of them does, to their values in order;
      otherwise the error is that of the first element that fails. */
  lemma ScanElementsSpec(d: Datum, elem: Option<ColumnInfo>, n: nat, floats: FloatCodec)
    requires n <= |d.arrayValue|
    requires forall i | 0 <= i < |d.arrayValue| :: AnyDecodable(d.arrayValue[i], elem)
    ensures ScanElements(d, elem, n, floats).Ok?
            <==> forall i | 0 <= i < n :: ScanAnyValue(d.arrayValue[i], elem, floats).Ok?
    ensures ScanElements(d, elem, n, floats).Ok? ==>
              var items := ScanElements(d, elem, n, floats).value;
              |items| == n
              && forall i | 0 <= i < n :: items[i] == ScanAnyValue(d.arrayValue[i], elem, floats).value
    ensures ScanElements(d, elem, n, floats).Err? ==>
              exists k | 0 <= k < n ::
                && ScanAnyValue(d.arrayValue[k], elem, floats) == Err(ScanElements(d, elem, n, floats).error)
                && forall i | 0 <= i < k :: ScanAnyValue(d.arrayValue[i], elem, floats).Ok?
  {
    ScanElementsCollects(d, elem, n, floats);
    var rs := ElementResults(d, elem, n, floats);
    CollectSpec(rs);
    assert forall i | 0 <= i < n :: rs[i] == ScanAnyValue(d.arrayValue[i], elem, floats);
    if Collect(rs).Err? {
      var k :| 0 <= k < n && rs[k] == Err(Collect(rs).error) && forall i | 0 <= i < k :: rs[i].Ok?;
      assert ScanAnyValue(d.arrayValue[k], elem, floats) == Err(ScanElements(d, elem, n, floats).error);
    }
  }

  /** The element-wise meaning of scanAny on an array datum: it succeeds exactly when every
      element does, and yields a list as long as the elements with each element's value at its
      position; a failure is the first failing element's error. */
  lemma ScanAnyOfArray(d: Datum, c: Option<ColumnInfo>, floats: FloatCodec)
    requires AnyDecodable(d, c) && d.scalarValue.None?
    ensures var elem := c.value.arrayColumnInfo;
            && (ScanAnyValue(d, c, floats).Ok?
                <==> forall i | 0 <= i < |d.arrayValue| :: ScanAnyValue(d.arrayValue[i], elem, floats).Ok?)
            && (ScanAnyValue(d, c, floats).Ok? ==>
                  var v := ScanAnyValue(d, c, floats).value;
                  && v.List? && |v.items| == |d.arrayValue|
                  && forall i | 0 <= i < |d.arrayValue| :: v.items[i] == ScanAnyValue(d.arrayValue[i], elem, floats).value)
            && (ScanAnyValue(d, c, floats).Err? ==>
                  exists k | 0 <= k < |d.arrayValue| ::
                    && ScanAnyValue(d.arrayValue[k], elem, floats) == Err(ScanAnyValue(d, c, floats).error)
                    && forall i | 0 <= i < k :: ScanAnyValue(d.arrayValue[i], elem, floats).Ok?)
  {
    ScanElementsSpec(d, c.value.arrayColumnInfo, |d.arrayValue|, floats);
  }

  /** A datum with neither scalar text nor elements decodes to the empty list. */
  lemma ScanAnyOfEmptyArray(d: Datum, c: Option<ColumnInfo>, floats: FloatCodec)
    requires AnyDecodable(d, c) && d.scalarValue.None? && d.arrayValue == []
    ensures ScanAnyValue(d, c, floats) == Ok(List([]))
  {
  }

  /** A decoded value has the nesting of its datum: a leaf for scalar text, and for an array
      a list of the same length whose items match the elements. */
  predicate ShapeMatches(v: Value, d: Datum)
    decreases d
  {
    if d.scalarValue.Some? then !v.List?
    else v.List? && |v.items| == |d.arrayValue|
         && forall i | 0 <= i < |d.arrayValue| :: ShapeMatches(v.items[i], d.arrayValue[i])
  }

  /** scanAny preserves the nesting depth and the order of the payload. */
  lemma {:induction false} ScanAnyPreservesShape(d: Datum, c: Option<ColumnInfo>, floats: FloatCodec)
    requires AnyDecodable(d, c) && ScanAnyValue(d, c, floats).Ok?
    ensures ShapeMatches(ScanAnyValue(d, c, floats).value, d)
    decreases d
  {
    if d.scalarValue.None? {
      ScanAnyOfArray(d, c, floats);
      var v := ScanAnyValue(d, c, floats).value;
      forall i | 0 <= i < |d.arrayValue|
        ensures ShapeMatches(v.items[i], d.arrayValue[i])
      {
        ScanAnyPreservesShape(d.arrayValue[i], c.value.arrayColumnInfo, floats);
      }
    }
  }

  /** The leaves of a decoded value, left to right. */
  function Leaves(v: Value): seq<Value>
    decreases v, 1
  {
    if v.List? then LeavesOf(v, |v.items|) else [v]
  }

  function LeavesOf(v: Value, n: nat): seq<Value>
    requires v.List? && n <= |v.items|
    decreases v, 0, n
  {
    if n == 0 then [] else LeavesOf(v, n - 1) + Leaves(v.items[n - 1])
  }

  /** scanAny, as the generic array scanner runs it: the elements are decoded into a fresh
      slice, each by a recursive call. */
  method ScanAny(d: Datum, c: Option<ColumnInfo>, floats: FloatCodec) returns (r: Result<Value, Error>)
    requires AnyDecodable(d, c)
    ensures r == ScanAnyValue(d, c, floats)
    decreases d
  {
    if d.scalarValue.Some? {
      return ScanScalarColumn(d, c.value, floats);
    }
    var elem := c.value.arrayColumnInfo;
    var ret := new Value[|d.arrayValue|];
    for i := 0 to |d.arrayValue|
      invariant ScanElements(d, elem, i, floats) == Ok(ret[..i])
    {
      var v := ScanAny(d.arrayValue[i], elem, floats);
      if v.Err? {
        ScanElementsErrorPersists(d, elem, i + 1, floats);
        return Err(v.error);
      }
      ret[i] := v.value;
      assert ret[..i + 1] == ret[..i] + [v.value];
    }
    assert ret[..] == ret[..|d.arrayValue|];
    return Ok(List(ret[..]));
  }

  /** Once the first n elements fail, all of them fail with the same error. */
  lemma {:induction false} ScanElementsErrorPersists(d: Datum, elem: Option<ColumnInfo>, n: nat, floats: FloatCodec)
    requires n <= |d.arrayValue|
    requires forall i | 0 <= i < |d.arrayValue| :: AnyDecodable(d.arrayValue[i], elem)
    requires ScanElements(d, elem, n, floats).Err?
    ensures ScanElements(d, elem, |d.arrayValue|, floats) == ScanElements(d, elem, n, floats)
    decreases |d.arrayValue| - n
  {
    if n < |d.arrayValue| {
      ScanElementsErrorPersists(d, elem, n + 1, floats);
    }
  }

  // ---------------------------------------------------------------------------------------
  // The typed scanners' element functions

  /** Every element carries scalar text (the typed scanners dereference it). */
  predicate AllScalar(ds: seq<Datum>) {
    forall i | 0 <= i < |ds| :: ds[i].scalarValue.Some?
  }

  /** The scalar texts of the elements, in order. */
  function Texts(ds: seq<Datum>): seq<string>
    requires AllScalar(ds)
  {
    if ds == [] then [] else Texts(ds[..|ds| - 1]) + [ds[|ds| - 1].scalarValue.value]
  }

  lemma {:induction false} TextsSpec(ds: seq<Datum>)
    requires AllScalar(ds)
    ensures |Texts(ds)| == |ds|
    ensures forall i | 0 <= i < |ds| :: Texts(ds)[i] == ds[i].scalarValue.value
  {
    if ds != [] {
      var prefix := ds[..|ds| - 1];
      assert forall i | 0 <= i < |prefix| :: prefix[i] == ds[i];
      TextsSpec(prefix);
    }
  }

  /** The boolean of each text: true exactly for the text "true". */
  function Booleans(texts: seq<string>): seq<bool> {
    if texts == [] then [] else Booleans(texts[..|texts| - 1]) + [texts[|texts| - 1] == "true"]
  }

  lemma {:induction false} BooleansSpec(texts: seq<string>)
    ensures |Booleans(texts)| == |texts|
    ensures forall i | 0 <= i < |texts| :: Booleans(texts)[i] <==> texts[i] == "true"
  {
    if texts != [] {
      var prefix := texts[..|texts| - 1];
      assert forall i | 0 <= i < |prefix| :: prefix[i] == texts[i];
      BooleansSpec(prefix);
    }
  }

  /** The values of a sequence of results, left to right; the first error aborts. */
  function Collect<T>(rs: seq<Result<T, Error>>): Result<seq<T>, Error> {
    if rs == [] then Ok([])
    else
      match Collect(rs[..|rs| - 1])
      case Err(e) => Err(e)
      case Ok(xs) =>
        match rs[|rs| - 1]
        case Ok(x) => Ok(xs + [x])
        case Err(e) => Err(e)
  }

  /** Collect succeeds exactly when every result does, and then yields every value in order;
      a failure is the first error. */
  lemma {:induction false} CollectSpec<T>(rs: seq<Result<T, Error>>)
    ensures Collect(rs).Ok? <==> forall i | 0 <= i < |rs| :: rs[i].Ok?
    ensures Collect(rs).Ok? ==>
              |Collect(rs).value| == |rs| && forall i | 0 <= i < |rs| :: Collect(rs).value[i] == rs[i].value
    ensures Collect(rs).Err? ==>
              exists k | 0 <= k < |rs| :: rs[k] == Err(Collect(rs).error) && forall i | 0 <= i < k :: rs[i].Ok?
  {
    if rs != [] {
      var prefix := rs[..|rs| - 1];
      assert forall i | 0 <= i < |prefix| :: prefix[i] == rs[i];
      CollectSpec(prefix);
    }
  }

  /** Each text parsed by f, left to right; the first failure aborts with its error. */
  function TryMap<T>(texts: seq<string>, f: string -> Result<T, Error>): Result<seq<T>, Error> {
    if texts == [] then Ok([])
    else
      match TryMap(texts[..|texts| - 1], f)
      case Err(e) => Err(e)
      case Ok(xs) =>
        match f(texts[|texts| - 1])
        case Ok(x) => Ok(xs + [x])
        case Err(e) => Err(e)
  }

  /** TryMap succeeds exactly when every text parses, and then yields every parsed value in
      order; a failure is the error of the first text that does not parse. */
  lemma {:induction false} TryMapSpec<T>(texts: seq<string>, f: string -> Result<T, Error>)
    ensures TryMap(texts, f).Ok? <==> forall i | 0 <= i < |texts| :: f(texts[i]).Ok?
    ensures TryMap(texts, f).Ok? ==>
              |TryMap(texts, f).value| == |texts|
              && forall i | 0 <= i < |texts| :: TryMap(texts, f).value[i] == f(texts[i]).value
    ensures TryMap(texts, f).Err? ==>
              exists k | 0 <= k < |texts| ::
                && f(texts[k]) == Err(TryMap(texts, f).error)
                && forall i | 0 <= i < k :: f(texts[i]).Ok?
  {
    if texts != [] {
      var prefix := texts[..|texts| - 1];
      assert forall i | 0 <= i < |prefix| :: prefix[i] == texts[i];
      TryMapSpec(prefix, f);
    }
  }

  lemma TryMapExtend<T>(texts: seq<string>, f: string -> Result<T, Error>, i: nat, xs: seq<T>)
    requires i < |texts| && TryMap(texts[..i], f) == Ok(xs)
    ensures f(texts[i]).Ok? ==> TryMap(texts[..i + 1], f) == Ok(xs + [f(texts[i]).value])
    ensures f(texts[i]).Err? ==> TryMap(texts[..i + 1], f) == Err(f(texts[i]).error)
  {
    assert texts[..i + 1][..i] == texts[..i];
  }

  lemma {:induction false} TryMapErrorPersists<T>(texts: seq<string>, f: string -> Result<T, Error>, i: nat)
    requires i <= |texts| && TryMap(texts[..i], f).Err?
    ensures TryMap(texts, f) == TryMap(texts[..i], f)
    decreases |texts| - i
  {
    if i < |texts| {
      assert texts[..i + 1][..i] == texts[..i];
      TryMapErrorPersists(texts, f, i + 1);
    } else {
      assert texts[..i] == texts;
    }
  }

  /** The integers of an integer array's texts. */
  function Integers(texts: seq<string>): Result<seq<int64>, Error> {
    TryMap(texts, IntegerText)
  }

  /** The floats of a float array's texts. */
  function Floats(texts: seq<string>, floats: FloatCodec): Result<seq<Float64>, Error> {
    TryMap(texts, (s: string) => FloatText(s, floats))
  }

  /** The integer array scanner and scanAny agree on an array of INTEGER elements: both
      succeed on the same payloads, with the same integers in the same order, and fail with
      the same error. */
  lemma IntegerArrayAgreesWithScanAny(d: Datum, c: ColumnInfo, floats: FloatCodec)
    requires d.scalarValue.None? && AllScalar(d.arrayValue)
    requires c.arrayColumnInfo == Some(ColumnInfo(None, Some(ScalarTypeInteger), None))
    ensures AnyDecodable(d, Some(c))
    ensures var ints := Integers(Texts(d.arrayValue));
            var any := ScanAnyValue(d, Some(c), floats);
            && (ints.Ok? <==> any.Ok?)
            && (ints.Ok? ==> any.value.List? && |any.value.items| == |ints.value|
                             && forall i | 0 <= i < |ints.value| :: any.value.items[i] == Int64Value(ints.value[i]))
            && (ints.Err? ==> any == Err(ints.error))
  {
    var ds := d.arrayValue;
    forall i | 0 <= i < |ds|
      ensures AnyDecodable(ds[i], c.arrayColumnInfo)
    {
      IntegerElement(ds[i], floats);
    }
    assert AnyDecodable(d, Some(c));
    var texts := Texts(ds);
    TextsSpec(ds);
    ScanElementsCollects(d, c.arrayColumnInfo, |ds|, floats);
    var rs := ElementResults(d, c.arrayColumnInfo, |ds|, floats);
    forall i | 0 <= i < |ds|
      ensures rs[i] == IntegerValue(IntegerText(texts[i]))
    {
      IntegerElement(ds[i], floats);
    }
    CollectIntegers(texts, rs);
  }

  /** The integer values of parsed integers, or the parse error. */
  function IntegerValues(r: Result<seq<int64>, Error>): Result<seq<Value>, Error> {
    match r
    case Ok(xs) => Ok(seq(|xs|, i requires 0 <= i < |xs| => Int64Value(xs[i])))
    case Err(e) => Err(e)
  }

  /** The int64 value of a parsed integer, or the parse error. */
  function IntegerValue(r: Result<int64, Error>): Result<Value, Error> {
    match r
    case Ok(n) => Ok(Int64Value(n))
    case Err(e) => Err(e)
  }

  /** Collecting the separately parsed integers of the texts is parsing them together. */
  lemma {:induction false} CollectIntegers(texts: seq<string>, rs: seq<Result<Value, Error>>)
    requires |rs| == |texts| && forall i | 0 <= i < |texts| :: rs[i] == IntegerValue(IntegerText(texts[i]))
    ensures Collect(rs) == IntegerValues(Integers(texts))
  {
    if texts != [] {
      var n := |texts| - 1;
      var before := texts[..n];
      var prefix := rs[..n];
      assert forall i | 0 <= i < n :: prefix[i] == IntegerValue(IntegerText(before[i]));
      CollectIntegers(before, prefix);
      var t := texts[n];
      assert rs[n] == IntegerValue(IntegerText(t));
      if Integers(before).Err? {
        assert Integers(texts) == Integers(before);
        assert Collect(rs) == Collect(prefix);
      } else if IntegerText(t).Err? {
        assert Integers(texts) == Err(IntegerText(t).error);
        assert Collect(rs) == Err(IntegerText(t).error);
      } else {
        var xs := Integers(before).value;
        var x := IntegerText(t).value;
        assert Integers(texts) == Ok(xs + [x]);
        var vs := seq(|xs|, i requires 0 <= i < |xs| => Int64Value(xs[i]));
        assert Collect(prefix) == Ok(vs);
        assert Collect(rs) == Ok(vs + [Int64Value(x)]);
        assert seq(|xs + [x]|, i requires 0 <= i < |xs + [x]| => Int64Value((xs + [x])[i])) == vs + [Int64Value(x)];
      }
    } else {
      assert Integers(texts) == Ok([]);
      var none: seq<int64> := [];
      assert seq(|none|, i requires 0 <= i < |none| => Int64Value(none[i])) == [];
    }
  }

  /** A scalar cell under an INTEGER descriptor is read by strconv.ParseInt. */
  lemma IntegerElement(d: Datum, floats: FloatCodec)
    requires d.scalarValue.Some?
    ensures AnyDecodable(d, Some(ScalarColumn(ScalarTypeInteger)))
    ensures ScanAnyValue(d, Some(ScalarColumn(ScalarTypeInteger)), floats)
            == IntegerValue(IntegerText(d.scalarValue.value))
  {
  }

  /** An array datum of two elements decodes to the list of the two elements' values. */
  lemma TwoElements(x: Datum, y: Datum, c: Option<ColumnInfo>, floats: FloatCodec, vx: Value, vy: Value)
    requires c.Some?
    requires AnyDecodable(x, c.value.arrayColumnInfo) && ScanAnyValue(x, c.value.arrayColumnInfo, floats) == Ok(vx)
    requires AnyDecodable(y, c.value.arrayColumnInfo) && ScanAnyValue(y, c.value.arrayColumnInfo, floats) == Ok(vy)
    ensures AnyDecodable(Datum(None, [x, y], None), c)
    ensures ScanAnyValue(Datum(None, [x, y], None), c, floats) == Ok(List([vx, vy]))
  {
    var d := Datum(None, [x, y], None);
    var elem := c.value.arrayColumnInfo;
    assert d.arrayValue[0] == x && d.arrayValue[1] == y;
    assert AnyDecodable(d, c);
    assert ScanElements(d, elem, 0, floats) == Ok([]);
    assert [] + [vx] == [vx];
    assert ScanElements(d, elem, 1, floats) == Ok([vx]);
    assert [vx] + [vy] == [vx, vy];
    assert ScanElements(d, elem, 2, floats) == Ok([vx, vy]);
  }

  /** A scalar cell with decimal text decodes under an INTEGER descriptor to that integer. */
  lemma IntegerCell(n: int64, floats: FloatCodec)
    ensures var leaf := Some(ScalarColumn(ScalarTypeInteger));
            AnyDecodable(ScalarDatum(FormatInt(n)), leaf)
            && ScanAnyValue(ScalarDatum(FormatInt(n)), leaf, floats) == Ok(Int64Value(n))
  {
    IntegerDecodesDecimalText(n, floats);
  }

  /** An array of two integer cells decodes to the list of the two integers. */
  lemma IntegerPair(a: int64, b: int64, floats: FloatCodec)
    ensures var inner := Some(ColumnInfo(None, None, Some(ScalarColumn(ScalarTypeInteger))));
            var d := Datum(None, [ScalarDatum(FormatInt(a)), ScalarDatum(FormatInt(b))], None);
            AnyDecodable(d, inner) && ScanAnyValue(d, inner, floats) == Ok(List([Int64Value(a), Int64Value(b)]))
  {
    var inner := Some(ColumnInfo(None, None, Some(ScalarColumn(ScalarTypeInteger))));
    IntegerCell(a, floats);
    IntegerCell(b, floats);
    TwoElements(ScalarDatum(FormatInt(a)), ScalarDatum(FormatInt(b)), inner, floats, Int64Value(a), Int64Value(b));
  }

  /** The payload of the nested-array scenario, [[1, 2], [3, 4]] under an array of arrays of
      INTEGER, decodes with its nesting kept and flattens to 1, 2, 3, 4. */
  lemma NestedArrayExample(floats: FloatCodec)
    ensures var c := Some(ColumnInfo(Some("nested"), None,
                                     Some(ColumnInfo(None, None, Some(ScalarColumn(ScalarTypeInteger))))));
            var d := Datum(None, [Datum(None, [ScalarDatum("1"), ScalarDatum("2")], None),
                                  Datum(None, [ScalarDatum("3"), ScalarDatum("4")], None)], None);
            && AnyDecodable(d, c)
            && ScanAnyValue(d, c, floats)
               == Ok(List([List([Int64Value(1), Int64Value(2)]), List([Int64Value(3), Int64Value(4)])]))
            && Leaves(ScanAnyValue(d, c, floats).value)
               == [Int64Value(1), Int64Value(2), Int64Value(3), Int64Value(4)]
  {
    var c := Some(ColumnInfo(Some("nested"), None,
                             Some(ColumnInfo(None, None, Some(ScalarColumn(ScalarTypeInteger))))));
    assert FormatInt(1) == "1" && FormatInt(2) == "2" && FormatInt(3) == "3" && FormatInt(4) == "4";
    var first := Datum(None, [ScalarDatum("1"), ScalarDatum("2")], None);
    var second := Datum(None, [ScalarDatum("3"), ScalarDatum("4")], None);
    IntegerPair(1, 2, floats);
    IntegerPair(3, 4, floats);
    var x := List([Int64Value(1), Int64Value(2)]);
    var y := List([Int64Value(3), Int64Value(4)]);
    TwoElements(first, second, c, floats, x, y);
    var v := List([x, y]);
    assert Leaves(v.items[0]) == [Int64Value(1), Int64Value(2)];
    assert Leaves(v.items[1]) == [Int64Value(3), Int64Value(4)];
  }

  // ---------------------------------------------------------------------------------------
  // The typed scanners

  /** A *StringArray: the caller's []string, filled by Scan. */
  class StringArray {
    var elems: seq<string>

    constructor(elems: seq<string>)
      ensures this.elems == elems
    {
      this.elems := elems;
    }

    /** Scan: every element's text, in order; a source other than a payload is refused and
        leaves the slice as it was. */
    method Scan(src: Value) returns (err: Option<Error>)
      requires src.Payload? ==> AllScalar(src.cd.datum.arrayValue)
      modifies this
      ensures src.Payload? ==> err.None? && elems == Texts(src.cd.datum.arrayValue)
      ensures !src.Payload? ==> err == Some(CannotConvert(TypeName(src))) && elems == old(elems)
    {
      if !src.Payload? {
        return Some(CannotConvert(TypeName(src)));
      }
      var ds := src.cd.datum.arrayValue;
      var xs := new string[|ds|];
      for i := 0 to |ds|
        invariant forall j | 0 <= j < i :: xs[j] == ds[j].scalarValue.value
      {
        xs[i] := ds[i].scalarValue.value;
      }
      TextsSpec(ds);
      elems := xs[..];
      return None;
    }
  }

  /** A *IntegerArray: the caller's []int (64 bits wide), filled by Scan. */
  class IntegerArray {
    var elems: seq<int64>

    constructor(elems: seq<int64>)
      ensures this.elems == elems
    {
      this.elems := elems;
    }

    /** Scan: every element's text parsed as a base-10 64-bit integer, in order; the first
        parse failure is returned and leaves the slice as it was. */
    method Scan(src: Value) returns (err: Option<Error>)
      requires src.Payload? ==> AllScalar(src.cd.datum.arrayValue)
      modifies this
      ensures src.Payload? ==>
                var parsed := Integers(Texts(src.cd.datum.arrayValue));
                && (parsed.Ok? ==> err.None? && elems == parsed.value)
                && (parsed.Err? ==> err == Some(parsed.error) && elems == old(elems))
      ensures !src.Payload? ==> err == Some(CannotConvert(TypeName(src))) && elems == old(elems)
    {
      if !src.Payload? {
        return Some(CannotConvert(TypeName(src)));
      }
      var ds := src.cd.datum.arrayValue;
      var texts := Texts(ds);
      TextsSpec(ds);
      var xs := new int64[|ds|];
      for i := 0 to |ds|
        invariant elems == old(elems)
        invariant TryMap(texts[..i], IntegerText) == Ok(xs[..i])
      {
        var parsed := IntegerText(ds[i].scalarValue.value);
        TryMapExtend(texts, IntegerText, i, xs[..i]);
        if parsed.Err? {
          TryMapErrorPersists(texts, IntegerText, i + 1);
          return Some(parsed.error);
        }
        xs[i] := parsed.value;
        assert xs[..i + 1] == xs[..i] + [parsed.value];
      }
      assert texts[..|ds|] == texts;
      elems := xs[..];
      return None;
    }
  }

  /** A *FloatArray: the caller's []float64, filled by Scan. */
  class FloatArray {
    var elems: seq<Float64>

    constructor(elems: seq<Float64>)
      ensures this.elems == elems
    {
      this.elems := elems;
    }

    /** Scan: every element's text parsed as a 64-bit float, in order; the first parse
        failure is returned and leaves the slice as it was. */
    method Scan(src: Value, floats: FloatCodec) returns (err: Option<Error>)
      requires src.Payload? ==> AllScalar(src.cd.datum.arrayValue)
      modifies this
      ensures src.Payload? ==>
                var parsed := Floats(Texts(src.cd.datum.arrayValue), floats);
                && (parsed.Ok? ==> err.None? && elems == parsed.value)
                && (parsed.Err? ==> err == Some(parsed.error) && elems == old(elems))
      ensures !src.Payload? ==> err == Some(CannotConvert(TypeName(src))) && elems == old(elems)
    {
      if !src.Payload? {
        return Some(CannotConvert(TypeName(src)));
      }
      var ds := src.cd.datum.arrayValue;
      var texts := Texts(ds);
      TextsSpec(ds);
      var f := (s: string) => FloatText(s, floats);
      var xs := new Float64[|ds|];
      for i := 0 to |ds|
        invariant elems == old(elems)
        invariant TryMap(texts[..i], f) == Ok(xs[..i])
      {
        var parsed := FloatText(ds[i].scalarValue.value, floats);
        TryMapExtend(texts, f, i, xs[..i]);
        if parsed.Err? {
          TryMapErrorPersists(texts, f, i + 1);
          return Some(parsed.error);
        }
        xs[i] := parsed.value;
        assert xs[..i + 1] == xs[..i] + [parsed.value];
      }
      assert texts[..|ds|] == texts;
      elems := xs[..];
      return None;
    }
  }

  /** A *BooleanArray: the caller's []bool, filled by Scan. */
  class BooleanArray {
    var elems: seq<bool>

    constructor(elems: seq<bool>)
      ensures this.elems == elems
    {
      this.elems := elems;
    }

    /** Scan: element i is true exactly when its text is "true"; a source other than a
        payload is refused and leaves the slice as it was. */
    method Scan(src: Value) returns (err: Option<Error>)
      requires src.Payload? ==> AllScalar(src.cd.datum.arrayValue)
      modifies this
      ensures src.Payload? ==> err.None? && elems == Booleans(Texts(src.cd.datum.arrayValue))
      ensures !src.Payload? ==> err == Some(CannotConvert(TypeName(src))) && elems == old(elems)
    {
      if !src.Payload? {
        return Some(CannotConvert(TypeName(src)));
      }
      var ds := src.cd.datum.arrayValue;
      var xs := new bool[|ds|];
      for i := 0 to |ds|
        invariant forall j | 0 <= j < i :: xs[j] == (ds[j].scalarValue.value == "true")
      {
        xs[i] := ds[i].scalarValue.value == "true";
      }
      TextsSpec(ds);
      BooleansSpec(Texts(ds));
      elems := xs[..];
      return None;
    }
  }

  // ---------------------------------------------------------------------------------------
  // AnyArray and the Array dispatch

  /** The reflect kind of a destination that is none of the eight typed shapes. */
  datatype Kind = PointerKind | SliceKind | ArrayKind | OtherKind

  /** The destinations Array dispatches on: a typed slice passed by value, a pointer to a
      typed slice (the variable the scanner writes through), or any other value by its kind
      and Go type name. */
  datatype Dest =
    | StringSlice(strings: seq<string>)
    | StringSlicePointer(stringTarget: StringArray)
    | IntSlice(ints: seq<int64>)
    | IntSlicePointer(intTarget: IntegerArray)
    | FloatSlice(floatValues: seq<Float64>)
    | FloatSlicePointer(floatTarget: FloatArray)
    | BoolSlice(bools: seq<bool>)
    | BoolSlicePointer(boolTarget: BooleanArray)
    | OtherDest(kind: Kind, typeName: string)

  /** What AnyArray's E holds: the destination it was made for, or the value Scan decoded. */
  datatype Element = Unset | Destination(dest: Dest) | Decoded(value: Value)

  /** AnyArray: a scanner whose E receives the generic decoding of the payload. */
  class AnyArray {
    var E: Element

    constructor(e: Element)
      ensures E == e
    {
      E := e;
    }

    /** Scan: E becomes the scanAny decoding of the payload when that succeeds; any error
        leaves E as it was. */
    method Scan(src: Value, floats: FloatCodec) returns (err: Option<Error>)
      requires src.Payload? ==> AnyDecodable(src.cd.datum, Some(src.cd.columnInfo))
      modifies this
      ensures src.Payload? ==>
                var r := ScanAnyValue(src.cd.datum, Some(src.cd.columnInfo), floats);
                && (r.Ok? ==> err.None? && E == Decoded(r.value))
                && (r.Err? ==> err == Some(r.error) && E == old(E))
      ensures !src.Payload? ==> err == Some(CannotConvert(TypeName(src))) && E == old(E)
    {
      if !src.Payload? {
        return Some(CannotConvert(TypeName(src)));
      }
      var r := ScanAny(src.cd.datum, Some(src.cd.columnInfo), floats);
      if r.Err? {
        return Some(r.error);
      }
      E := Decoded(r.value);
      return None;
    }
  }

  /** The scanner Array returns. */
  datatype CustomType =
    | StringArrayScanner(strings: StringArray)
    | IntegerArrayScanner(ints: IntegerArray)
    | FloatArrayScanner(floatValues: FloatArray)
    | BooleanArrayScanner(bools: BooleanArray)
    | AnyArrayScanner(any: AnyArray)

  /** Array: a pointer to a typed slice becomes the typed scanner over that very variable; a
      typed slice passed by value becomes a typed scanner over a fresh copy; any other
      pointer, slice or array is wrapped in an AnyArray; anything else has no scanner. */
  method Array(x: Dest) returns (r: Option<CustomType>)
    ensures x.StringSlicePointer? ==> r == Some(StringArrayScanner(x.stringTarget))
    ensures x.IntSlicePointer? ==> r == Some(IntegerArrayScanner(x.intTarget))
    ensures x.FloatSlicePointer? ==> r == Some(FloatArrayScanner(x.floatTarget))
    ensures x.BoolSlicePointer? ==> r == Some(BooleanArrayScanner(x.boolTarget))
    ensures x.StringSlice? ==>
              r.Some? && r.value.StringArrayScanner? && fresh(r.value.strings) && r.value.strings.elems == x.strings
    ensures x.IntSlice? ==>
              r.Some? && r.value.IntegerArrayScanner? && fresh(r.value.ints) && r.value.ints.elems == x.ints
    ensures x.FloatSlice? ==>
              r.Some? && r.value.FloatArrayScanner? && fresh(r.value.floatValues)
              && r.value.floatValues.elems == x.floatValues
    ensures x.BoolSlice? ==>
              r.Some? && r.value.BooleanArrayScanner? && fresh(r.value.bools) && r.value.bools.elems == x.bools
    ensures x.OtherDest? && x.kind != OtherKind ==>
              r.Some? && r.value.AnyArrayScanner? && fresh(r.value.any) && r.value.any.E == Destination(x)
    ensures x.OtherDest? && x.kind == OtherKind ==> r.None?
  {
    match x
    case StringSlice(ss) =>
      var a := new StringArray(ss);
      return Some(StringArrayScanner(a));
    case StringSlicePointer(p) =>
      return Some(StringArrayScanner(p));
    case IntSlice(ns) =>
      var a := new IntegerArray(ns);
      return Some(IntegerArrayScanner(a));
    case IntSlicePointer(p) =>
      return Some(IntegerArrayScanner(p));
    case FloatSlicePointer(p) =>
      return Some(FloatArrayScanner(p));
    case FloatSlice(fs) =>
      var a := new FloatArray(fs);
      return Some(FloatArrayScanner(a));
    case BoolSlicePointer(p) =>
      return Some(BooleanArrayScanner(p));
    case BoolSlice(bs) =>
      var a := new BooleanArray(bs);
      return Some(BooleanArrayScanner(a));
    case OtherDest(kind, _) =>
      if kind == PointerKind || kind == ArrayKind || kind == SliceKind {
        var a := new AnyArray(Destination(x));
        return Some(AnyArrayScanner(a));
      }
      return None;
  }
}
