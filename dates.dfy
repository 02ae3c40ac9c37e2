/**
 * Calendar dates as the application stores them: `fecha` is an RFC 3339
 * `full-date` string ("YYYY-MM-DD"), read with `new Date(fecha)` and written
 * with `new Date().toISOString().split('T')[0]`.
 */
module Dates {
  import opened Wrappers
  import opened JsStrings

  /** A (year, month, day) triple; months count from 1. */
  datatype Date = Date(year: int, month: int, day: int)

  /** Gregorian leap years. */
  predicate IsLeapYear(y: int) {
    y % 4 == 0 && (y % 100 != 0 || y % 400 == 0)
  }

  function DaysInMonth(y: int, m: int): (n: int)
    requires 1 <= m <= 12
    ensures 28 <= n <= 31
    ensures m == 2 ==> (n == 29 <==> IsLeapYear(y))
  {
    if m == 2 then (if IsLeapYear(y) then 29 else 28)
    else if m == 4 || m == 6 || m == 9 || m == 11 then 30
    else 31
  }

  predicate ValidDate(d: Date) {
    1 <= d.month <= 12 && 1 <= d.day <= DaysInMonth(d.year, d.month)
  }

  /** Chronological order of dates: lexicographic on (year, month, day). */
  predicate DateLeq(a: Date, b: Date) {
    a.year < b.year || (a.year == b.year && (a.month < b.month || (a.month == b.month && a.day <= b.day)))
  }

  /** `n` written with exactly `w` digits, zero-filled on the left; it reads back as `n`. */
  function Padded(n: nat, w: nat): (r: string)
    requires 1 <= w && n < Pow10(w)
    ensures |r| == w && AllDigits(r)
    ensures DigitsValue(r) == n
  {
    var t := NatToString(n);
    NatToStringLength(n, w);
    if |t| < w then
      LeadingZerosValue(w - |t|, t);
      Repeat('0', w - |t|) + t
    else
      t
  }

  /**
   * The date part of `Date.prototype.toISOString` ("YYYY-MM-DD"), defined for the
   * four-digit years that method writes without a sign. Reading it back with
   * `ParseFullDate` gives the date again: the stored `fecha` of a form
   * submitted today names today.
   */
  function FormatFullDate(d: Date): (s: string)
    requires ValidDate(d) && 0 <= d.year <= 9999
    ensures |s| == 10 && s[4] == '-' && s[7] == '-'
    ensures ParseFullDate(s) == Some(d)
  {
    assert Pow10(2) == 100 && Pow10(4) == 10000;
    var y, m, dd := Padded(d.year, 4), Padded(d.month, 2), Padded(d.day, 2);
    var s := y + "-" + m + "-" + dd;
    assert s[..4] == y && s[5..7] == m && s[8..] == dd;
    s
  }

  /**
   * `new Date(s)` for a date-only string: the date when `s` is a well-formed
   * "YYYY-MM-DD" naming an existing day, and `None` (an Invalid Date) otherwise.
   */
  function ParseFullDate(s: string): (r: Option<Date>)
    ensures r.Some? ==> ValidDate(r.value) && 0 <= r.value.year <= 9999
    ensures r.Some? ==> |s| == 10 && s[4] == '-' && s[7] == '-'
  {
    if |s| == 10 && s[4] == '-' && s[7] == '-'
       && AllDigits(s[..4]) && AllDigits(s[5..7]) && AllDigits(s[8..])
    then
      assert Pow10(4) == 10000;
      var d := Date(DigitsValue(s[..4]), DigitsValue(s[5..7]), DigitsValue(s[8..]));
      if ValidDate(d) then Some(d) else None
    else
      None
  }

  /** A numeral of `w` digits is its own zero-filled `w`-digit rendering. */
  lemma PaddedOfDigits(t: string)
    requires 1 <= |t| && AllDigits(t)
    ensures Padded(DigitsValue(t), |t|) == t
  {
    DigitsValueInjective(Padded(DigitsValue(t), |t|), t);
  }

  /**
   * The other half of the round trip: a string that reads as a date has digits
   * in its eight other places and is exactly the "YYYY-MM-DD" rendering of that
   * date, so it names that date and no other.
   */
  lemma FormatParseRoundTrip(s: string)
    ensures ParseFullDate(s).Some? ==> AllDigits(s[..4]) && AllDigits(s[5..7]) && AllDigits(s[8..])
    ensures ParseFullDate(s).Some? ==> FormatFullDate(ParseFullDate(s).value) == s
  {
    if ParseFullDate(s).Some? {
      PaddedOfDigits(s[..4]);
      PaddedOfDigits(s[5..7]);
      PaddedOfDigits(s[8..]);
      assert s == s[..4] + "-" + s[5..7] + "-" + s[8..];
    }
  }
}
