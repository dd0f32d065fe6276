/** The two fixed time layouts the driver uses, read and written in UTC:
    the date layout "2006-01-02" and the timestamp layout "2006-01-02 15:04:05.999999999".
    Only these two layouts of Go's time package are modelled. */
module CivilTime {
  import opened Wrappers
  import opened Decimal

  const DateLayout: string := "2006-01-02"
  const TimeLayout: string := "2006-01-02 15:04:05.999999999"

  /** A time.Time, given by its civil fields. */
  datatype DateTime = DateTime(year: int, month: int, day: int,
                               hour: int, minute: int, second: int, nanosecond: int)

  predicate IsLeap(year: int) {
    year % 4 == 0 && (year % 100 != 0 || year % 400 == 0)
  }

  function DaysIn(month: int, year: int): int
    requires 1 <= month <= 12
  {
    if month == 2 then (if IsLeap(year) then 29 else 28)
    else if month == 4 || month == 6 || month == 9 || month == 11 then 30
    else 31
  }

  /** A calendar date the time package accepts. */
  predicate ValidDate(year: int, month: int, day: int) {
    1 <= month <= 12 && 1 <= day <= DaysIn(month, year)
  }

  predicate ValidClock(hour: int, minute: int, second: int, nanosecond: int) {
    0 <= hour < 24 && 0 <= minute < 60 && 0 <= second < 60 && 0 <= nanosecond < 1_000_000_000
  }

  predicate Valid(t: DateTime) {
    ValidDate(t.year, t.month, t.day) && ValidClock(t.hour, t.minute, t.second, t.nanosecond)
  }

  /** Days from 1970-01-01 to the given proleptic Gregorian date. */
  function DaysFromCivil(year: int, month: int, day: int): int
    requires 1 <= month <= 12
  {
    var y := if month <= 2 then year - 1 else year;
    var era := y / 400;
    var yoe := y - era * 400;
    var doy := (153 * (if month > 2 then month - 3 else month + 9) + 2) / 5 + day - 1;
    var doe := yoe * 365 + yoe / 4 - yoe / 100 + doy;
    era * 146097 + doe - 719468
  }

  /** The instant as Unix seconds, reading the civil fields as UTC. */
  function UnixSeconds(t: DateTime): int
    requires 1 <= t.month <= 12
  {
    DaysFromCivil(t.year, t.month, t.day) * 86400 + t.hour * 3600 + t.minute * 60 + t.second
  }

  /** A fixed-width field of decimal digits. */
  function Field(s: string, from: nat, width: nat): Option<nat>
    requires from + width <= |s|
  {
    if AllDigits(s[from..from + width]) then Some(DigitsValue(s[from..from + width])) else None
  }

  /** "YYYY-MM-DD", exactly ten characters, as a valid calendar date. */
  function DateFields(s: string): Option<(int, int, int)>
    requires |s| == 10
  {
    var y := Field(s, 0, 4);
    var m := Field(s, 5, 2);
    var d := Field(s, 8, 2);
    if y.Some? && s[4] == '-' && m.Some? && s[7] == '-' && d.Some?
       && ValidDate(y.value, m.value, d.value)
    then Some((y.value, m.value, d.value))
    else None
  }

  /** Nanoseconds from the digits after the decimal point: the first nine digits count,
      a shorter run is scaled up. */
  function Nanoseconds(digits: string): nat
    requires AllDigits(digits)
  {
    if |digits| >= 9 then DigitsValue(digits[..9])
    else DigitsValue(digits) * Pow10(9 - |digits|)
  }

  /** The fractional second of the timestamp layout: absent, or a '.' or ',' followed by digits
      up to the end of the text. */
  function Fraction(rest: string): Option<nat> {
    if rest == [] then Some(0)
    else if |rest| >= 2 && (rest[0] == '.' || rest[0] == ',') && AllDigits(rest[1..]) then
      Some(Nanoseconds(rest[1..]))
    else None
  }

  /** "H:MM:SS" or "HH:MM:SS" (the hour field of layout "15" takes one or two digits),
      then the fraction. */
  function ClockFields(s: string): Option<(int, int, int, int)> {
    if s == [] || !IsDigit(s[0]) then None
    else
      var hourWidth := if |s| >= 2 && IsDigit(s[1]) then 2 else 1;
      var hour := DigitsValue(s[..hourWidth]);
      var rest := s[hourWidth..];
      if |rest| >= 6 && rest[0] == ':' && rest[3] == ':' then
        var minute := Field(rest, 1, 2);
        var second := Field(rest, 4, 2);
        var nanos := Fraction(rest[6..]);
        if minute.Some? && second.Some? && nanos.Some?
           && ValidClock(hour, minute.value, second.value, nanos.value)
        then Some((hour, minute.value, second.value, nanos.value))
        else None
      else None
  }

  /** time.ParseInLocation with the date layout, in UTC: midnight of the date. */
  function ParseDate(s: string): (r: Option<DateTime>)
    ensures r.Some? ==> Valid(r.value)
    ensures r.Some? ==> r.value.hour == 0 && r.value.minute == 0 && r.value.second == 0
                        && r.value.nanosecond == 0
  {
    if |s| == 10 then
      match DateFields(s)
      case Some((y, m, d)) => Some(DateTime(y, m, d, 0, 0, 0, 0))
      case None => None
    else None
  }

  /** The text without its leading spaces (the time package's cutspace). */
  function CutSpace(s: string): (r: string)
    ensures r == [] || r[0] != ' '
    ensures |r| <= |s| && r == s[|s| - |r|..]
  {
    if s != [] && s[0] == ' ' then CutSpace(s[1..]) else s
  }

  /** time.ParseInLocation with the timestamp layout, in UTC. The layout's single space
      matches a run of one or more spaces: the text must have a space there, and every space
      is skipped before the clock. */
  function ParseTime(s: string): (r: Option<DateTime>)
    ensures r.Some? ==> Valid(r.value)
  {
    if |s| >= 11 && s[10] == ' ' then
      match (DateFields(s[..10]), ClockFields(CutSpace(s[10..])))
      case (Some((y, m, d)), Some((hh, mm, ss, ns))) => Some(DateTime(y, m, d, hh, mm, ss, ns))
      case _ => None
    else None
  }

  function Spaces(k: nat): (r: string)
    ensures |r| == k
  {
    seq(k, _ => ' ')
  }

  function Zeros(k: nat): (r: string)
    ensures |r| == k && AllDigits(r)
  {
    seq(k, _ => '0')
  }

  /** The text without its trailing '0' characters. */
  function TrimZeros(s: string): (r: string)
    ensures |r| <= |s| && s == r + Zeros(|s| - |r|)
    ensures r != [] ==> r[|r| - 1] != '0'
  {
    if s != [] && s[|s| - 1] == '0' then
      var r := TrimZeros(s[..|s| - 1]);
      assert s == s[..|s| - 1] + ['0'];
      assert Zeros(|s| - 1 - |r|) + ['0'] == Zeros(|s| - |r|);
      r
    else
      assert s == s + Zeros(0);
      s
  }

  /** The fractional part written for layout ".999999999": nothing for a whole second,
      otherwise a point and the nine digits without their trailing zeros. */
  function FractionText(nanosecond: nat): string {
    if nanosecond == 0 then "" else "." + TrimZeros(FixedWidth(nanosecond, 9))
  }

  function DateText(t: DateTime): string {
    AppendInt(t.year, 4) + "-" + AppendInt(t.month, 2) + "-" + AppendInt(t.day, 2)
  }

  function ClockText(t: DateTime): string
    requires t.nanosecond >= 0
  {
    AppendInt(t.hour, 2) + ":" + AppendInt(t.minute, 2) + ":" + AppendInt(t.second, 2)
    + FractionText(t.nanosecond)
  }

  /** time.Time.Format with the timestamp layout. */
  function FormatTime(t: DateTime): string
    requires t.nanosecond >= 0
  {
    DateText(t) + " " + ClockText(t)
  }

  lemma DigitsValueSnoc(s: string, c: char)
    requires AllDigits(s) && IsDigit(c)
    ensures AllDigits(s + [c]) && DigitsValue(s + [c]) == DigitsValue(s) * 10 + DigitValue(c)
  {
    assert (s + [c])[..|s|] == s;
  }

  lemma ZerosSnoc(k: nat)
    requires k >= 1
    ensures Zeros(k) == Zeros(k - 1) + ['0']
  {
  }

  lemma MulPow10(v: nat, k: nat)
    requires k >= 1
    ensures v * Pow10(k - 1) * 10 == v * Pow10(k)
  {
    assert Pow10(k) == 10 * Pow10(k - 1);
  }

  lemma {:induction false} DigitsValueAppendZeros(s: string, k: nat)
    requires AllDigits(s)
    ensures AllDigits(s + Zeros(k)) && DigitsValue(s + Zeros(k)) == DigitsValue(s) * Pow10(k)
  {
    if k == 0 {
      assert s + Zeros(k) == s;
    } else {
      var shorter := s + Zeros(k - 1);
      DigitsValueAppendZeros(s, k - 1);
      ZerosSnoc(k);
      ConcatAssoc(s, Zeros(k - 1), ['0']);
      DigitsValueSnoc(shorter, '0');
      MulPow10(DigitsValue(s), k);
    }
  }

  lemma {:induction false} DigitsValueOfZeros(k: nat)
    ensures DigitsValue(Zeros(k)) == 0
  {
    if k > 0 {
      assert Zeros(k)[..k - 1] == Zeros(k - 1);
      DigitsValueOfZeros(k - 1);
    }
  }

  lemma Pow10Of9()
    ensures Pow10(9) == 1_000_000_000
  {
    assert Pow10(3) == 1000;
    assert Pow10(6) == 1000 * Pow10(3);
  }

  /** The digits of a nine-digit fraction without its trailing zeros still denote it once
      scaled back to nine digits. */
  lemma TrimmedFraction(nanosecond: nat)
    requires 0 < nanosecond < 1_000_000_000
    ensures var t := TrimZeros(FixedWidth(nanosecond, 9));
            0 < |t| <= 9 && AllDigits(t) && Nanoseconds(t) == nanosecond
  {
    var full := FixedWidth(nanosecond, 9);
    Pow10Of9();
    assert DigitsValue(full) == nanosecond;
    var t := TrimZeros(full);
    assert AllDigits(t) by {
      forall i | 0 <= i < |t| ensures IsDigit(t[i]) { assert t[i] == full[i]; }
    }
    DigitsValueAppendZeros(t, 9 - |t|);
    if t == [] {
      DigitsValueOfZeros(9);
      assert false;
    }
    if |t| == 9 {
      assert t[..9] == t;
    }
  }

  /** Go drops the trailing zeros of the fraction when formatting and scales a short fraction
      back up when parsing: the two meet at the same nanosecond count. */
  lemma FractionRoundTrip(nanosecond: nat)
    requires 0 <= nanosecond < 1_000_000_000
    ensures Fraction(FractionText(nanosecond)) == Some(nanosecond)
  {
    if nanosecond != 0 {
      TrimmedFraction(nanosecond);
      var t := TrimZeros(FixedWidth(nanosecond, 9));
      var text := "." + t;
      assert text[1..] == t;
    }
  }

  lemma FieldOfFixedWidth(s: string, from: nat, n: nat, width: nat)
    requires from + width <= |s| && n < Pow10(width)
    requires s[from..from + width] == FixedWidth(n, width)
    ensures Field(s, from, width) == Some(n)
  {
  }

  lemma DateTextSlices(y: string, m: string, d: string)
    requires |y| == 4 && |m| == 2 && |d| == 2
    ensures var s := y + "-" + m + "-" + d;
            |s| == 10 && s[0..4] == y && s[4] == '-' && s[5..7] == m && s[7] == '-' && s[8..10] == d
  {
  }

  /** Parsing the date text of a valid date with a four-digit year gives back its fields. */
  lemma DateFieldsRoundTrip(t: DateTime)
    requires ValidDate(t.year, t.month, t.day) && 0 <= t.year < 10000
    ensures |DateText(t)| == 10 && DateFields(DateText(t)) == Some((t.year, t.month, t.day))
  {
    var y, m, d := FixedWidth(t.year, 4), FixedWidth(t.month, 2), FixedWidth(t.day, 2);
    assert Pow10(2) == 100;
    assert Pow10(4) == 10000;
    var s := DateText(t);
    assert s == y + "-" + m + "-" + d;
    DateTextSlices(y, m, d);
    FieldOfFixedWidth(s, 0, t.year, 4);
    FieldOfFixedWidth(s, 5, t.month, 2);
    FieldOfFixedWidth(s, 8, t.day, 2);
  }

  /** The clock fields of a zero-padded clock text followed by any fraction text that parses. */
  lemma {:induction false} ClockFieldsOfText(t: DateTime, f: string)
    requires ValidClock(t.hour, t.minute, t.second, t.nanosecond) && Fraction(f) == Some(t.nanosecond)
    ensures ClockFields(AppendInt(t.hour, 2) + ":" + AppendInt(t.minute, 2) + ":" + AppendInt(t.second, 2) + f)
            == Some((t.hour, t.minute, t.second, t.nanosecond))
  {
    var h, mi, se := FixedWidth(t.hour, 2), FixedWidth(t.minute, 2), FixedWidth(t.second, 2);
    var s := h + ":" + mi + ":" + se + f;
    assert s == h + (":" + mi + ":" + se + f);
    assert s[..2] == h;
    var rest := s[2..];
    assert rest == ":" + mi + ":" + se + f;
    assert rest[1..3] == mi && rest[4..6] == se && rest[6..] == f;
    FieldOfFixedWidth(rest, 1, t.minute, 2);
    FieldOfFixedWidth(rest, 4, t.second, 2);
  }

  /** Parsing the clock text of a valid time of day gives back its fields. */
  lemma {:induction false} ClockFieldsRoundTrip(t: DateTime)
    requires ValidClock(t.hour, t.minute, t.second, t.nanosecond)
    ensures ClockFields(ClockText(t)) == Some((t.hour, t.minute, t.second, t.nanosecond))
  {
    FractionRoundTrip(t.nanosecond);
    ClockFieldsOfText(t, FractionText(t.nanosecond));
  }

  /** A valid time with a four-digit year survives Format followed by Parse with the
      timestamp layout. */
  lemma {:induction false} FormatParseTimeRoundTrip(t: DateTime)
    requires Valid(t) && 0 <= t.year < 10000
    ensures ParseTime(FormatTime(t)) == Some(t)
  {
    assert Spaces(1) == " ";
    assert FormatTime(t) == DateText(t) + Spaces(1) + ClockText(t);
    SpacesBeforeClock(t, 1);
  }

  /** Spaces skipped before the clock: cutting the spaces off k spaces followed by a text that
      does not start with one leaves that text. */
  lemma {:induction false} CutSpaces(k: nat, c: string)
    requires c == [] || c[0] != ' '
    ensures CutSpace(Spaces(k) + c) == c
  {
    if k > 0 {
      var s := Spaces(k) + c;
      assert s[0] == ' ' && s[1..] == Spaces(k - 1) + c;
      CutSpaces(k - 1, c);
    } else {
      assert Spaces(k) + c == c;
    }
  }

  /** The clock text starts with the first digit of the hour. */
  lemma ClockTextStartsWithDigit(t: DateTime)
    requires ValidClock(t.hour, t.minute, t.second, t.nanosecond)
    ensures ClockText(t) != [] && IsDigit(ClockText(t)[0])
    ensures ZeroPaddedClock(t) != [] && IsDigit(ZeroPaddedClock(t)[0])
  {
    assert Pow10(2) == 100;
    var h := AppendInt(t.hour, 2);
    assert h == FixedWidth(t.hour, 2);
    assert ClockText(t)[0] == h[0];
    assert ZeroPaddedClock(t)[0] == h[0];
  }

  /** Any run of one or more spaces may separate the date from the clock: the date text, k
      spaces and the clock text of a valid time parse back as that time. */
  lemma {:induction false} SpacesBeforeClock(t: DateTime, k: nat)
    requires Valid(t) && 0 <= t.year < 10000 && k >= 1
    ensures ParseTime(DateText(t) + Spaces(k) + ClockText(t)) == Some(t)
  {
    DateFieldsRoundTrip(t);
    ClockFieldsRoundTrip(t);
    ClockTextStartsWithDigit(t);
    var c := ClockText(t);
    CutSpaces(k, c);
    ParseTimeOfParts(DateText(t), Spaces(k) + c);
    ConcatAssoc(DateText(t), Spaces(k), c);
  }

  /** The timestamp parse of a ten-character date followed by a text that starts with a space. */
  lemma ParseTimeOfParts(date: string, rest: string)
    requires |date| == 10 && rest != [] && rest[0] == ' '
    ensures ParseTime(date + rest)
            == match (DateFields(date), ClockFields(CutSpace(rest)))
               case (Some((y, m, d)), Some((hh, mm, ss, ns))) => Some(DateTime(y, m, d, hh, mm, ss, ns))
               case _ => None
  {
    var s := date + rest;
    assert s[..10] == date && s[10..] == rest;
  }

  /** The layout's space is not optional: the date text run straight into the clock text does
      not parse. */
  lemma NoSpaceBeforeClock(t: DateTime)
    requires Valid(t) && 0 <= t.year < 10000
    ensures ParseTime(DateText(t) + ClockText(t)).None?
  {
    DateFieldsRoundTrip(t);
    ClockTextStartsWithDigit(t);
    var s := DateText(t) + ClockText(t);
    assert s[10] == ClockText(t)[0];
  }

  /** A valid date with a four-digit year survives its date text being parsed with the date
      layout, at midnight. */
  lemma {:induction false} FormatParseDateRoundTrip(t: DateTime)
    requires ValidDate(t.year, t.month, t.day) && 0 <= t.year < 10000
    ensures ParseDate(DateText(t)) == Some(DateTime(t.year, t.month, t.day, 0, 0, 0, 0))
  {
    DateFieldsRoundTrip(t);
  }

  /** A fraction of k zero digits is zero nanoseconds. */
  lemma ZeroFraction(k: nat)
    requires k >= 1
    ensures Fraction("." + Zeros(k)) == Some(0)
  {
    var z := "." + Zeros(k);
    assert z[1..] == Zeros(k);
    if k >= 9 {
      assert Zeros(k)[..9] == Zeros(9);
      DigitsValueOfZeros(9);
    } else {
      DigitsValueOfZeros(k);
    }
  }

  /** The text Format writes for a whole second, split at the date/clock separator. */
  function ZeroPaddedClock(t: DateTime): string {
    AppendInt(t.hour, 2) + ":" + AppendInt(t.minute, 2) + ":" + AppendInt(t.second, 2)
  }

  lemma FormatTimeOfWholeSecond(t: DateTime, suffix: string)
    requires t.nanosecond == 0
    ensures FormatTime(t) + suffix == DateText(t) + " " + (ZeroPaddedClock(t) + suffix)
  {
    assert FractionText(t.nanosecond) == "";
  }

  lemma SplitTimestampText(date: string, clock: string)
    requires |date| == 10
    requires clock != [] && clock[0] != ' '
    ensures var s := date + " " + clock;
            |s| >= 11 && s[..10] == date && s[10] == ' ' && CutSpace(s[10..]) == clock
  {
    var rest := " " + clock;
    assert rest == Spaces(1) + clock;
    CutSpaces(1, clock);
    var s := date + " " + clock;
    assert s == date + rest;
    assert s[..10] == date && s[10..] == rest;
  }

  /** Parse accepts a fraction of any number of zero digits after a whole second: the text
      Format writes followed by such a fraction parses to the same time. */
  lemma {:induction false} ZeroFractionParses(t: DateTime, k: nat)
    requires Valid(t) && 0 <= t.year < 10000 && t.nanosecond == 0 && k >= 1
    ensures ParseTime(FormatTime(t) + "." + Zeros(k)) == Some(t)
  {
    var z := "." + Zeros(k);
    ZeroFraction(k);
    ClockFieldsOfText(t, z);
    DateFieldsRoundTrip(t);
    FormatTimeOfWholeSecond(t, z);
    ClockTextStartsWithDigit(t);
    assert (ZeroPaddedClock(t) + z)[0] == ZeroPaddedClock(t)[0];
    SplitTimestampText(DateText(t), ZeroPaddedClock(t) + z);
    assert FormatTime(t) + "." + Zeros(k) == FormatTime(t) + z;
  }

  // Two-digit fields as appendInt writes them, for the literal examples below.
  lemma TwoDigits(n: nat)
    requires n < 100
    ensures AppendInt(n, 2) == [DigitChar(n / 10), DigitChar(n % 10)]
  {
    assert Pow10(2) == 100;
    assert FixedWidth(n / 10, 1) == [] + [DigitChar(n / 10 % 10)];
  }

  lemma TwoDigitsOf(n: nat, a: nat, b: nat)
    requires a < 10 && b < 10 && n == 10 * a + b
    ensures AppendInt(n, 2) == [DigitChar(a), DigitChar(b)]
  {
    TwoDigits(n);
  }

  // Digit literals for ClockTextOf123456, which supports TimestampTextExample.
  lemma ClockDigits()
    ensures [DigitChar(1), DigitChar(2)] == "12"
    ensures [DigitChar(3), DigitChar(4)] == "34"
    ensures [DigitChar(5), DigitChar(6)] == "56"
  {
  }

  // The year field of the 2010-01-01 examples (DateTextExample, TimestampTextExample).
  lemma Year2010()
    ensures AppendInt(2010, 4) == "2010"
  {
    assert Pow10(4) == 10000;
    assert FixedWidth(2, 1) == "2";
    assert FixedWidth(20, 2) == "20";
    assert FixedWidth(201, 3) == "201";
  }

  // The date text of the 2010-01-01 examples.
  lemma DateTextOf20100101(t: DateTime)
    requires t.year == 2010 && t.month == 1 && t.day == 1
    ensures DateText(t) == "2010-01-01"
  {
    Year2010();
    TwoDigits(1);
    var m := AppendInt(1, 2);
    assert m == "01";
    assert DateText(t) == "2010" + "-" + m + "-" + m;
    DateLiteral();
  }

  // Literal concatenation for DateTextOf20100101, which supports DateTextExample.
  lemma DateLiteral()
    ensures "2010" + "-" + "01" + "-" + "01" == "2010-01-01"
  {
  }

  // The clock text of the 12:34:56 example.
  lemma ClockTextOf123456(t: DateTime)
    requires t.hour == 12 && t.minute == 34 && t.second == 56
    ensures ZeroPaddedClock(t) == "12:34:56"
  {
    TwoDigitsOf(t.hour, 1, 2);
    TwoDigitsOf(t.minute, 3, 4);
    TwoDigitsOf(t.second, 5, 6);
    ClockDigits();
    var h, m, sec := AppendInt(t.hour, 2), AppendInt(t.minute, 2), AppendInt(t.second, 2);
    assert h == "12" && m == "34" && sec == "56";
    assert ZeroPaddedClock(t) == h + ":" + m + ":" + sec;
    ClockLiteral();
  }

  // Literal concatenation for ClockTextOf123456, which supports TimestampTextExample.
  lemma ClockLiteral()
    ensures "12" + ":" + "34" + ":" + "56" == "12:34:56"
  {
  }

  // Literal concatenation for TimestampTextOf20100101, which supports TimestampTextExample.
  lemma NineZerosText()
    ensures Zeros(9) == "000000000"
    ensures "2010-01-01" + " " + ("12:34:56" + ("." + "000000000")) == "2010-01-01 12:34:56.000000000"
  {
  }

  // The timestamp text of TimestampTextExample, as Format plus nine zero fraction digits.
  lemma TimestampTextOf20100101(t: DateTime)
    requires t == DateTime(2010, 1, 1, 12, 34, 56, 0)
    ensures FormatTime(t) + "." + Zeros(9) == "2010-01-01 12:34:56.000000000"
  {
    DateTextOf20100101(t);
    ClockTextOf123456(t);
    NineZerosText();
    FormatTimeOfWholeSecond(t, "." + Zeros(9));
    ConcatAssoc(FormatTime(t), ".", Zeros(9));
  }

  /** The timestamp text the query service sends for 2010-01-01 12:34:56, with nine zero
      fraction digits, parses to that time. */
  lemma {:induction false} TimestampTextExample()
    ensures ParseTime("2010-01-01 12:34:56.000000000") == Some(DateTime(2010, 1, 1, 12, 34, 56, 0))
  {
    var t := DateTime(2010, 1, 1, 12, 34, 56, 0);
    ZeroFractionParses(t, 9);
    TimestampTextOf20100101(t);
  }

  /** The date text "2010-01-01" parses to midnight of that day. */
  lemma {:induction false} DateTextExample()
    ensures ParseDate("2010-01-01") == Some(DateTime(2010, 1, 1, 0, 0, 0, 0))
  {
    FormatParseDateRoundTrip(DateTime(2010, 1, 1, 0, 0, 0, 0));
    DateTextOf20100101(DateTime(2010, 1, 1, 0, 0, 0, 0));
  }

  /** 2010-01-01 is Unix day 14610: midnight is 1262304000 and 12:34:56 is 1262349296. */
  lemma {:induction false} UnixSecondsExamples()
    ensures UnixSeconds(DateTime(2010, 1, 1, 0, 0, 0, 0)) == 1262304000
    ensures UnixSeconds(DateTime(2010, 1, 1, 12, 34, 56, 0)) == 1262349296
  {
    assert DaysFromCivil(2010, 1, 1) == 14610;
  }
}
