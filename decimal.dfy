/** Decimal text of integers: the behaviour of Go's strconv.FormatInt / ParseInt / ParseUint
    (base 10, 64 bits) and of big.Int's SetString (base 10), on which the driver relies. */
module Decimal {
  import opened Wrappers

  const MinInt64: int := -0x8000_0000_0000_0000
  const MaxInt64: int := 0x7fff_ffff_ffff_ffff
  const MaxUint64: int := 0xffff_ffff_ffff_ffff

  type int64 = x: int | -0x8000_0000_0000_0000 <= x <= 0x7fff_ffff_ffff_ffff
  type uint64 = x: int | 0 <= x <= 0xffff_ffff_ffff_ffff

  predicate IsDigit(c: char) {
    '0' <= c <= '9'
  }

  predicate AllDigits(s: string) {
    forall i | 0 <= i < |s| :: IsDigit(s[i])
  }

  function DigitValue(c: char): (d: nat)
    requires IsDigit(c)
    ensures d < 10
  {
    (c as int) - ('0' as int)
  }

  function DigitChar(d: nat): (c: char)
    requires d < 10
    ensures IsDigit(c) && DigitValue(c) == d
  {
    (('0' as int) + d) as char
  }

  function Pow10(k: nat): (p: nat)
    ensures p >= 1
  {
    if k == 0 then 1 else 10 * Pow10(k - 1)
  }

  /** The number a string of decimal digits spells, most significant digit first. */
  function DigitsValue(s: string): nat
    requires AllDigits(s)
  {
    if s == [] then 0 else DigitsValue(s[..|s| - 1]) * 10 + DigitValue(s[|s| - 1])
  }

  /** The shortest decimal text of n, as strconv.FormatUint(n, 10) writes it. */
  function Decimal(n: nat): (r: string)
    ensures |r| > 0 && AllDigits(r)
    ensures DigitsValue(r) == n
    ensures r[0] == '0' ==> n == 0
  {
    if n < 10 then [DigitChar(n)]
    else
      var prefix := Decimal(n / 10);
      assert (prefix + [DigitChar(n % 10)])[..|prefix|] == prefix;
      prefix + [DigitChar(n % 10)]
  }

  /** strconv.FormatInt(i, 10): a minus sign for negative numbers, then the magnitude. */
  function FormatInt(i: int): string {
    if i < 0 then "-" + Decimal(-i) else Decimal(i)
  }

  /** Exactly w digits: the w low-order decimal digits of n, zero-padded on the left. */
  function FixedWidth(n: nat, w: nat): (r: string)
    ensures |r| == w && AllDigits(r)
    ensures n < Pow10(w) ==> DigitsValue(r) == n
  {
    if w == 0 then []
    else
      var prefix := FixedWidth(n / 10, w - 1);
      assert (prefix + [DigitChar(n % 10)])[..|prefix|] == prefix;
      prefix + [DigitChar(n % 10)]
  }

  /** The time package's appendInt(b, x, width): a sign, then the magnitude zero-padded to at
      least `width` digits. */
  function AppendInt(x: int, width: nat): string {
    var u := if x < 0 then -x else x;
    var digits := if u < Pow10(width) then FixedWidth(u, width) else Decimal(u);
    if x < 0 then "-" + digits else digits
  }

  /** The kind of a strconv.NumError. */
  datatype NumErrorKind = ErrSyntax | ErrRange

  /** The digit loop of strconv.ParseUint(s, 10, 64): characters are consumed left to right; the
      first non-digit is a syntax error and the first prefix whose value exceeds MaxUint64 is a
      range error, whichever comes first. */
  function AccumulateUint(s: string): Result<uint64, NumErrorKind> {
    if s == [] then Ok(0)
    else
      match AccumulateUint(s[..|s| - 1])
      case Err(e) => Err(e)
      case Ok(n) =>
        var c := s[|s| - 1];
        if !IsDigit(c) then Err(ErrSyntax)
        else if n * 10 + DigitValue(c) > MaxUint64 then Err(ErrRange)
        else Ok(n * 10 + DigitValue(c))
  }

  /** strconv.ParseUint(s, 10, 64). */
  function ParseUint(s: string): Result<uint64, NumErrorKind> {
    if s == [] then Err(ErrSyntax) else AccumulateUint(s)
  }

  /** strconv.ParseInt(s, 10, 64): an optional sign, then ParseUint of the rest, then the
      signed range check. */
  function ParseInt(s: string): Result<int64, NumErrorKind> {
    if s == [] then Err(ErrSyntax)
    else
      var neg := s[0] == '-';
      var body := if s[0] == '+' || s[0] == '-' then s[1..] else s;
      match ParseUint(body)
      case Err(e) => Err(e)
      case Ok(u) =>
        if !neg && u > MaxInt64 then Err(ErrRange)
        else if neg && u > MaxInt64 + 1 then Err(ErrRange)
        else Ok(if neg then -(u as int) else u as int)
  }

  /** big.Int's SetString(s, 10): an optional sign, then one or more decimal digits, and
      nothing else. The value is unbounded. */
  function ParseBigInt(s: string): Option<int> {
    var body := if |s| > 0 && (s[0] == '+' || s[0] == '-') then s[1..] else s;
    if body != [] && AllDigits(body) then
      var magnitude: int := DigitsValue(body);
      Some(if s[0] == '-' then -magnitude else magnitude)
    else None
  }

  lemma {:induction false} DigitsValuePrefix(s: string, k: nat)
    requires AllDigits(s) && k <= |s|
    ensures AllDigits(s[..k]) && DigitsValue(s[..k]) <= DigitsValue(s)
    decreases |s| - k
  {
    if k < |s| {
      var t := s[..|s| - 1];
      assert AllDigits(t);
      assert t[..k] == s[..k];
      DigitsValuePrefix(t, k);
      assert DigitsValue(s) == DigitsValue(t) * 10 + DigitValue(s[|s| - 1]);
    } else {
      assert s[..k] == s;
    }
  }

  /** The strconv digit loop succeeds exactly on digit strings whose value fits in 64 unsigned
      bits, and then yields that value. */
  lemma {:induction false} AccumulateUintSpec(s: string)
    ensures AccumulateUint(s).Ok? <==> AllDigits(s) && DigitsValue(s) <= MaxUint64
    ensures AccumulateUint(s).Ok? ==> AccumulateUint(s).value == DigitsValue(s)
  {
    if s != [] {
      var t := s[..|s| - 1];
      AccumulateUintSpec(t);
      if AllDigits(s) {
        assert AllDigits(t);
        DigitsValuePrefix(s, |s| - 1);
      }
    }
  }

  /** strconv.ParseInt, an early-exit digit loop, accepts exactly the texts that big.Int's
      SetString reads as a number in the signed 64-bit range, and agrees with it on the value. */
  lemma ParseIntAgreesWithBigInt(s: string)
    ensures ParseInt(s).Ok? <==> ParseBigInt(s).Some? && MinInt64 <= ParseBigInt(s).value <= MaxInt64
    ensures ParseInt(s).Ok? ==> ParseInt(s).value == ParseBigInt(s).value
  {
    if s != [] {
      var body := if s[0] == '+' || s[0] == '-' then s[1..] else s;
      AccumulateUintSpec(body);
    }
  }

  /** FormatInt followed by ParseBigInt gives back every integer. */
  lemma FormatIntBigIntRoundTrip(i: int)
    ensures ParseBigInt(FormatInt(i)) == Some(i)
  {
    if i < 0 {
      var s := FormatInt(i);
      assert s[1..] == Decimal(-i);
    }
  }

  /** FormatInt followed by ParseInt gives back every signed 64-bit integer, 0 and both
      boundary values included. */
  lemma FormatParseIntRoundTrip(i: int64)
    ensures ParseInt(FormatInt(i)) == Ok(i)
  {
    FormatIntBigIntRoundTrip(i);
    ParseIntAgreesWithBigInt(FormatInt(i));
  }

  /** Regrouping a concatenation of three texts: a proof step used where a text is built in
      another grouping than the function that writes it (the substitution and time proofs). */
  lemma ConcatAssoc(a: string, b: string, c: string)
    ensures a + (b + c) == a + b + c
  {
  }
}
