/**
 * The JavaScript string operations the application relies on: `trim`, `length`
 * (counted in UTF-16 code units), `padStart` and `Number.prototype.toString`
 * for integers.
 */
module JsStrings {

  /** The ECMAScript WhiteSpace and LineTerminator code points, which `String.prototype.trim` removes. */
  predicate IsWhiteSpace(c: char) {
    || c == '\t' || c == '\n' || c == '\U{000B}' || c == '\U{000C}' || c == '\r' || c == ' '
    || c == '\U{00A0}' || c == '\U{1680}' || ('\U{2000}' <= c <= '\U{200A}')
    || c == '\U{2028}' || c == '\U{2029}' || c == '\U{202F}' || c == '\U{205F}'
    || c == '\U{3000}' || c == '\U{FEFF}'
  }

  predicate AllWhiteSpace(s: string) {
    forall i :: 0 <= i < |s| ==> IsWhiteSpace(s[i])
  }

  /** `s.trimStart()`: the suffix of `s` left after dropping leading white space. */
  function TrimStart(s: string): (r: string)
    ensures |r| <= |s| && r == s[|s| - |r|..]
    ensures r == [] || !IsWhiteSpace(r[0])
    ensures AllWhiteSpace(s[..|s| - |r|])
  {
    if s != [] && IsWhiteSpace(s[0]) then
      var r := TrimStart(s[1..]);
      TrimStartPaso(s, r);
      r
    else
      s
  }

  /** Dropping one leading white-space character more keeps the dropped prefix white. */
  lemma TrimStartPaso(s: string, r: string)
    requires s != [] && IsWhiteSpace(s[0])
    requires |r| <= |s| - 1 && r == s[1..][|s| - 1 - |r|..] && AllWhiteSpace(s[1..][..|s| - 1 - |r|])
    ensures r == s[|s| - |r|..] && AllWhiteSpace(s[..|s| - |r|])
  {
    assert s[..|s| - |r|] == [s[0]] + s[1..][..|s| - 1 - |r|];
  }

  /** `s.trimEnd()`: the prefix of `s` left after dropping trailing white space. */
  function TrimEnd(s: string): (r: string)
    ensures |r| <= |s| && r == s[..|r|]
    ensures r == [] || !IsWhiteSpace(r[|r| - 1])
    ensures AllWhiteSpace(s[|r|..])
  {
    if s != [] && IsWhiteSpace(s[|s| - 1]) then
      var r := TrimEnd(s[..|s| - 1]);
      TrimEndPaso(s, r);
      r
    else
      s
  }

  /** Dropping one trailing white-space character more keeps the dropped suffix white. */
  lemma TrimEndPaso(s: string, r: string)
    requires s != [] && IsWhiteSpace(s[|s| - 1])
    requires |r| <= |s| - 1 && r == s[..|s| - 1][..|r|] && AllWhiteSpace(s[..|s| - 1][|r|..])
    ensures r == s[..|r|] && AllWhiteSpace(s[|r|..])
  {
    assert s[|r|..] == s[..|s| - 1][|r|..] + [s[|s| - 1]];
  }

  /** `r` is a piece of `s` with nothing but white space before and after it. */
  predicate EsMedio(s: string, r: string) {
    exists i :: 0 <= i <= |s| - |r| && r == s[i..i + |r|] && AllWhiteSpace(s[..i]) && AllWhiteSpace(s[i + |r|..])
  }

  /**
   * Taking a suffix `t` of `s` after white space, then a prefix `r` of `t`
   * before white space, leaves a middle piece of `s` with only white space
   * around it; it is empty exactly when `s` is all white space.
   */
  lemma TrimPiezas(s: string, t: string, r: string)
    requires |t| <= |s| && t == s[|s| - |t|..] && AllWhiteSpace(s[..|s| - |t|])
    requires t == [] || !IsWhiteSpace(t[0])
    requires |r| <= |t| && r == t[..|r|] && AllWhiteSpace(t[|r|..])
    requires r == [] || !IsWhiteSpace(r[|r| - 1])
    ensures r == [] || (!IsWhiteSpace(r[0]) && !IsWhiteSpace(r[|r| - 1]))
    ensures r == [] <==> AllWhiteSpace(s)
    ensures EsMedio(s, r)
  {
    var i := |s| - |t|;
    assert s[i + |r|..] == t[|r|..];
    assert r == s[i..i + |r|];
    if r == [] {
      assert t[|r|..] == t;
      assert s == s[..i] + t;
    }
    if t != [] {
      assert t[0] == s[i];
    }
    if r != [] {
      assert r[0] == t[0];
    }
  }

  /**
   * `s.trim()`: the piece of `s` left after dropping its leading and trailing
   * white space. It is empty exactly when `s` is made of white space only
   * (JavaScript treats `''` as false).
   */
  function Trim(s: string): (r: string)
    ensures |r| <= |s|
    ensures r == [] || (!IsWhiteSpace(r[0]) && !IsWhiteSpace(r[|r| - 1]))
    ensures r == [] <==> AllWhiteSpace(s)
  {
    var t := TrimStart(s);
    var r := TrimEnd(t);
    TrimPiezas(s, t, r);
    r
  }

  /** What `trim` leaves is the middle of `s`: only white space was dropped, on either side. */
  lemma TrimEsMedio(s: string)
    ensures EsMedio(s, Trim(s))
  {
    var t := TrimStart(s);
    TrimPiezas(s, t, TrimEnd(t));
  }

  /** Trimming twice is trimming once. */
  lemma TrimIdempotent(s: string)
    ensures Trim(Trim(s)) == Trim(s)
  {
    var r := Trim(s);
    if r != [] {
      assert TrimStart(r) == r;
      assert TrimEnd(r) == r;
    }
  }

  /** `a || b` on strings: `a` unless it is empty, which JavaScript treats as false. */
  function OrElse(a: string, b: string): (r: string)
    ensures a != "" ==> r == a
    ensures a == "" ==> r == b
  {
    if a != "" then a else b
  }

  /** The number of UTF-16 code units `c` takes: two for a code point outside the Basic Multilingual Plane. */
  function CodeUnits(c: char): nat {
    if c as int > 0xFFFF then 2 else 1
  }

  /** The positions of `s` holding a code point outside the Basic Multilingual Plane. */
  function Astrales(s: string): set<int> {
    set i | 0 <= i < |s| && s[i] as int > 0xFFFF
  }

  /**
   * `s.length`: JavaScript counts UTF-16 code units, not code points, so each
   * character outside the Basic Multilingual Plane counts twice.
   */
  function JsLength(s: string): (n: nat)
    ensures n == |s| + |Astrales(s)|
    ensures |s| <= n <= 2 * |s|
  {
    if s == [] then 0
    else
      var init := s[..|s| - 1];
      var ultimo := s[|s| - 1];
      assert Astrales(s) == Astrales(init) + (if ultimo as int > 0xFFFF then {|s| - 1} else {}) by {
        forall i ensures i in Astrales(s) <==> i in Astrales(init) || (i == |s| - 1 && ultimo as int > 0xFFFF) {
          if 0 <= i < |s| - 1 {
            assert s[i] == init[i];
          }
        }
      }
      JsLength(init) + CodeUnits(ultimo)
  }

  /** A string of `k` copies of `c`. */
  function Repeat(c: char, k: nat): (r: string)
    ensures |r| == k && forall i :: 0 <= i < k ==> r[i] == c
  {
    seq(k, _ => c)
  }

  /**
   * `s.padStart(n, c)` for a one-character fill. It is applied only to the output
   * of `Number.prototype.toString`, which is ASCII, so code units and characters agree.
   */
  function PadStart(s: string, n: nat, c: char): (r: string)
    ensures |r| == if |s| < n then n else |s|
    ensures r[|r| - |s|..] == s
    ensures forall i :: 0 <= i < |r| - |s| ==> r[i] == c
  {
    if |s| < n then Repeat(c, n - |s|) + s else s
  }

  predicate IsDigit(c: char) {
    '0' <= c <= '9'
  }

  predicate AllDigits(s: string) {
    forall i :: 0 <= i < |s| ==> IsDigit(s[i])
  }

  function DigitChar(d: nat): (c: char)
    requires d < 10
    ensures IsDigit(c)
  {
    ('0' as int + d) as char
  }

  function DigitValue(c: char): (d: nat)
    requires IsDigit(c)
    ensures d < 10 && DigitChar(d) == c
  {
    c as int - '0' as int
  }

  function Pow10(k: nat): (p: nat)
    ensures p >= 1
  {
    if k == 0 then 1 else 10 * Pow10(k - 1)
  }

  /** The value of a string of decimal digits, most significant first; leading zeros allowed. */
  function DigitsValue(s: string): (n: nat)
    requires AllDigits(s)
    ensures n < Pow10(|s|)
  {
    if s == [] then 0 else 10 * DigitsValue(s[..|s| - 1]) + DigitValue(s[|s| - 1])
  }

  /**
   * `n.toString()` for a non-negative integer: the shortest decimal numeral of `n`,
   * which `DigitsValue` reads back as `n`.
   */
  function NatToString(n: nat): (r: string)
    ensures 1 <= |r| && AllDigits(r)
    ensures |r| > 1 ==> r[0] != '0'
    ensures DigitsValue(r) == n
  {
    if n < 10 then
      [DigitChar(n)]
    else
      var p := NatToString(n / 10);
      var r := p + [DigitChar(n % 10)];
      assert r[..|r| - 1] == p;
      r
  }

  /** `n.toString()` for an integer: a minus sign before the numeral of a negative number. */
  function IntToString(n: int): (r: string)
    ensures 1 <= |r|
    ensures n >= 0 ==> r == NatToString(n)
    ensures n < 0 ==> r[0] == '-' && r[1..] == NatToString(-n)
  {
    if n < 0 then "-" + NatToString(-n) else NatToString(n)
  }

  /** A numeral has at most `k` digits when its value is below 10^k. */
  lemma {:induction false} NatToStringLength(n: nat, k: nat)
    requires 1 <= k && n < Pow10(k)
    ensures |NatToString(n)| <= k
  {
    if n >= 10 {
      assert Pow10(1) == 10;
      assert n / 10 < Pow10(k - 1);
      NatToStringLength(n / 10, k - 1);
    }
  }

  /** Two numerals of the same length and the same value are the same string. */
  lemma {:induction false} DigitsValueInjective(a: string, b: string)
    requires |a| == |b| && AllDigits(a) && AllDigits(b)
    requires DigitsValue(a) == DigitsValue(b)
    ensures a == b
  {
    if a != [] {
      var ia, ib := a[..|a| - 1], b[..|b| - 1];
      var x, y := DigitsValue(ia), DigitsValue(ib);
      var da, db := DigitValue(a[|a| - 1]), DigitValue(b[|b| - 1]);
      assert 10 * x + da == 10 * y + db;
      assert x == y && da == db;
      assert a[|a| - 1] == DigitChar(da) == b[|b| - 1];
      DigitsValueInjective(ia, ib);
      assert a == ia + [a[|a| - 1]] && b == ib + [b[|b| - 1]];
    }
  }

  /** Leading zeros do not change the value of a numeral. */
  lemma {:induction false} LeadingZerosValue(k: nat, s: string)
    requires AllDigits(s)
    ensures AllDigits(Repeat('0', k) + s)
    ensures DigitsValue(Repeat('0', k) + s) == DigitsValue(s)
  {
    var z := Repeat('0', k) + s;
    if s == [] {
      assert z == Repeat('0', k);
      if k > 0 {
        assert z[..|z| - 1] == Repeat('0', k - 1) + [];
        LeadingZerosValue(k - 1, []);
      }
    } else {
      var init := s[..|s| - 1];
      assert z[..|z| - 1] == Repeat('0', k) + init;
      LeadingZerosValue(k, init);
    }
  }
}
