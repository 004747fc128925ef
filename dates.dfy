/**
 * Calendar dates as the page holds them (Python `datetime.date`), their
 * order, and the ISO 8601 calendar-date extended form `YYYY-MM-DD`
 * (section 5.2.1.1 of ISO 8601:2004) in which a new order's date is
 * written to the sheet and from which the next load reads it back.
 */
module Dates {
  import opened Wrappers

  /** A year, month and day triple, not necessarily a real date. */
  datatype Ymd = Ymd(year: int, month: int, day: int)

  predicate IsLeapYear(y: int) {
    y % 4 == 0 && (y % 100 != 0 || y % 400 == 0)
  }

  function DaysInMonth(y: int, m: int): (n: int)
    requires 1 <= m <= 12
    ensures 28 <= n <= 31
    ensures m == 2 ==> (n == 29 <==> IsLeapYear(y))
  {
    if m == 2 then (if IsLeapYear(y) then 29 else 28)
    else if m == 4 || m == 6 || m == 9 || m == 11 then 30
    else 31
  }

  /** The dates Python's `date` can hold: proleptic Gregorian, years 1 to 9999. */
  predicate IsDate(d: Ymd) {
    1 <= d.year <= 9999 && 1 <= d.month <= 12 && 1 <= d.day <= DaysInMonth(d.year, d.month)
  }

  type Date = d: Ymd | IsDate(d) witness Ymd(1970, 1, 1)

  /** Chronological order: lexicographic on (year, month, day). */
  predicate Before(a: Ymd, b: Ymd) {
    a.year < b.year
    || (a.year == b.year && (a.month < b.month || (a.month == b.month && a.day < b.day)))
  }

  predicate NotAfter(a: Ymd, b: Ymd) {
    a == b || Before(a, b)
  }

  /**
   * The dates a pandas nanosecond `Timestamp` can hold at midnight:
   * 1677-09-22 to 2262-04-11. In pandas 1.x and 2.x `pd.to_datetime` parses
   * text at nanosecond resolution and refuses a date outside this range.
   */
  predicate InTimestampRange(d: Ymd) {
    NotAfter(Ymd(1677, 9, 22), d) && NotAfter(d, Ymd(2262, 4, 11))
  }

  lemma BeforeTrichotomy(a: Ymd, b: Ymd)
    ensures Before(a, b) || a == b || Before(b, a)
    ensures !(Before(a, b) && Before(b, a))
    ensures !Before(a, a)
  {
  }

  lemma BeforeTransitive(a: Ymd, b: Ymd, c: Ymd)
    requires Before(a, b) && Before(b, c)
    ensures Before(a, c)
  {
  }

  // ---------------------------------------------------------------
  // Decimal digits

  predicate IsDigit(c: char) {
    '0' <= c <= '9'
  }

  function DigitChar(n: int): (c: char)
    requires 0 <= n <= 9
    ensures IsDigit(c) && c as int - '0' as int == n
  {
    ('0' as int + n) as char
  }

  function DigitValue(c: char): (n: int)
    requires IsDigit(c)
    ensures 0 <= n <= 9 && DigitChar(n) == c
  {
    c as int - '0' as int
  }

  predicate AllDigits(s: string) {
    forall i :: 0 <= i < |s| ==> IsDigit(s[i])
  }

  /** The value of a string of decimal digits, most significant first. */
  function Decimal(s: string): (n: nat)
    requires AllDigits(s)
  {
    if s == [] then 0 else Decimal(s[..|s| - 1]) * 10 + DigitValue(s[|s| - 1])
  }

  /** `n` written with exactly two digits, zero-padded (`%m`, `%d`). */
  function Pad2(n: int): (s: string)
    requires 0 <= n <= 99
    ensures |s| == 2 && AllDigits(s) && Decimal(s) == n
  {
    var s := [DigitChar(n / 10), DigitChar(n % 10)];
    assert s[..1] == [s[0]] && s[..1][..0] == [];
    assert Decimal(s[..1]) == n / 10;
    s
  }

  /** Appending two digits multiplies the value so far by a hundred. */
  lemma DecimalAppend2(a: string, b: string)
    requires AllDigits(a) && AllDigits(b) && |b| == 2
    ensures AllDigits(a + b) && Decimal(a + b) == Decimal(a) * 100 + Decimal(b)
  {
    var ab := a + b;
    var a0 := a + [b[0]];
    var v0, v1 := DigitValue(b[0]), DigitValue(b[1]);
    assert ab[..|ab| - 1] == a0 && ab[|ab| - 1] == b[1];
    assert a0[..|a0| - 1] == a;
    assert Decimal(a0) == Decimal(a) * 10 + v0;
    assert Decimal(ab) == Decimal(a0) * 10 + v1;
    assert b[..1] == [b[0]] && b[..1][..0] == [];
    assert Decimal(b[..1]) == v0;
    assert Decimal(b) == v0 * 10 + v1;
    assert (Decimal(a) * 10 + v0) * 10 + v1 == Decimal(a) * 100 + (v0 * 10 + v1);
  }

  /** `n` written with exactly four digits, zero-padded (`%Y`). */
  function Pad4(n: int): (s: string)
    requires 0 <= n <= 9999
    ensures |s| == 4 && AllDigits(s) && Decimal(s) == n
  {
    DecimalAppend2(Pad2(n / 100), Pad2(n % 100));
    assert Pad2(n / 100)[..|Pad2(n / 100)|] == Pad2(n / 100);
    Pad2(n / 100) + Pad2(n % 100)
  }

  // ---------------------------------------------------------------
  // ISO 8601 calendar date, extended format

  /** `d.strftime('%Y-%m-%d')`. */
  function FormatIso(d: Date): (s: string)
    ensures |s| == 10 && s[4] == '-' && s[7] == '-'
  {
    Pad4(d.year) + "-" + Pad2(d.month) + "-" + Pad2(d.day)
  }

  predicate IsoShape(s: string) {
    |s| == 10 && s[4] == '-' && s[7] == '-'
    && AllDigits(s[0..4]) && AllDigits(s[5..7]) && AllDigits(s[8..10])
  }

  /**
   * Reads `YYYY-MM-DD` back as a date: `None` when the text does not have
   * that shape or names no real date (a 30 February, a month 13).
   */
  function ParseIso(s: string): (r: Option<Date>)
    ensures r.Some? ==> IsoShape(s)
  {
    if IsoShape(s) then
      var d := Ymd(Decimal(s[0..4]), Decimal(s[5..7]), Decimal(s[8..10]));
      if IsDate(d) then Some(d) else None
    else None
  }

  /** Writing a date and reading it back gives the same calendar date. */
  lemma ParseFormatted(d: Date)
    ensures ParseIso(FormatIso(d)) == Some(d)
  {
    var s := FormatIso(d);
    assert s[0..4] == Pad4(d.year);
    assert s[5..7] == Pad2(d.month);
    assert s[8..10] == Pad2(d.day);
  }

  /** A string of digits is determined by its length and value. */
  lemma {:induction false} DecimalInjective(s: string, t: string)
    requires AllDigits(s) && AllDigits(t) && |s| == |t| && Decimal(s) == Decimal(t)
    ensures s == t
  {
    if s != [] {
      var k := |s| - 1;
      var a, b := Decimal(s[..k]), Decimal(t[..k]);
      assert a * 10 + DigitValue(s[k]) == b * 10 + DigitValue(t[k]);
      var x, y := DigitValue(s[k]), DigitValue(t[k]);
      assert (a - b) * 10 == y - x;
      assert a == b && x == y;
      DecimalInjective(s[..k], t[..k]);
      assert s == s[..k] + [s[k]] && t == t[..k] + [t[k]];
    }
  }

  /** The text a load accepts as a date is exactly how that date is written. */
  lemma FormatParsed(s: string)
    requires ParseIso(s).Some?
    ensures FormatIso(ParseIso(s).value) == s
  {
    var d := ParseIso(s).value;
    var f := FormatIso(d);
    assert f[0..4] == Pad4(d.year) && f[5..7] == Pad2(d.month) && f[8..10] == Pad2(d.day);
    DecimalInjective(f[0..4], s[0..4]);
    DecimalInjective(f[5..7], s[5..7]);
    DecimalInjective(f[8..10], s[8..10]);
    assert f == f[0..4] + f[4..5] + f[5..7] + f[7..8] + f[8..10];
    assert s == s[0..4] + s[4..5] + s[5..7] + s[7..8] + s[8..10];
  }
}
