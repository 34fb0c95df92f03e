/** Decimal numerals as the import scripts read them: the text that the regular expression
    `[+-]?\d+(\.\d+)?([eE][+-]?\d+)?` matches, and the exact value Python's `float()` gives
    such text when binary rounding is ignored. */
module Numerals {
  import opened Wrappers

  predicate IsDigit(c: char) {
    '0' <= c <= '9'
  }

  predicate AllDigits(s: string) {
    forall k :: 0 <= k < |s| ==> IsDigit(s[k])
  }

  /** The leading run of digits of `s`, and the text after it. */
  function DigitRun(s: string): (r: (string, string))
    ensures AllDigits(r.0) && r.0 + r.1 == s
    ensures r.1 == [] || !IsDigit(r.1[0])
  {
    if s == [] || !IsDigit(s[0]) then ([], s)
    else
      var r := DigitRun(s[1..]);
      assert [s[0]] + r.0 + r.1 == [s[0]] + (r.0 + r.1);
      ([s[0]] + r.0, r.1)
  }

  /** The number a string of decimal digits denotes. */
  function DigitsValue(d: string): nat
    requires AllDigits(d)
  {
    if d == [] then 0
    else
      assert AllDigits(d[..|d| - 1]);
      DigitsValue(d[..|d| - 1]) * 10 + (d[|d| - 1] as int - '0' as int)
  }

  function Pow10(n: nat): (r: nat)
    ensures r >= 1
  {
    if n == 0 then 1 else 10 * Pow10(n - 1)
  }

  /** The exponent part `[eE][+-]?\d+`. */
  datatype Exponent = Exponent(marker: char, sign: string, digits: string)

  /** A numeral: an optional sign, the whole digits, the fraction digits (empty when there is
      no `.` part) and an optional exponent. */
  datatype Numeral = Numeral(sign: string, whole: string, frac: string, exponent: Option<Exponent>)

  predicate IsSign(s: string) {
    s == "" || s == "+" || s == "-"
  }

  predicate ExponentWellFormed(x: Exponent) {
    (x.marker == 'e' || x.marker == 'E') && IsSign(x.sign) && x.digits != [] && AllDigits(x.digits)
  }

  predicate WellFormed(n: Numeral) {
    && IsSign(n.sign)
    && n.whole != [] && AllDigits(n.whole)
    && AllDigits(n.frac)
    && (n.exponent.Some? ==> ExponentWellFormed(n.exponent.value))
  }

  function ExponentText(x: Exponent): string {
    [x.marker] + x.sign + x.digits
  }

  function FracText(frac: string): string {
    if frac == [] then [] else "." + frac
  }

  function OptExponentText(x: Option<Exponent>): string {
    match x
    case None => []
    case Some(e) => ExponentText(e)
  }

  /** The numeral written out. */
  function Text(n: Numeral): string {
    n.sign + n.whole + FracText(n.frac) + OptExponentText(n.exponent)
  }

  /** `m * 10^e`. */
  function Scaled(m: real, e: int): real {
    if e >= 0 then m * Pow10(e) as real else m / Pow10(-e) as real
  }

  /** The exact value of a numeral. */
  function Value(n: Numeral): real
    requires WellFormed(n)
  {
    var m := DigitsValue(n.whole) as real + DigitsValue(n.frac) as real / Pow10(|n.frac|) as real;
    var e: int := match n.exponent
      case None => 0
      case Some(x) => if x.sign == "-" then -(DigitsValue(x.digits) as int) else DigitsValue(x.digits);
    var v := Scaled(m, e);
    if n.sign == "-" then -v else v
  }

  /** The optional sign at the start of `s`, and the text after it. */
  function SignPart(s: string): (r: (string, string))
    ensures IsSign(r.0) && r.0 + r.1 == s
  {
    if s != [] && (s[0] == '+' || s[0] == '-') then
      assert s == [s[0]] + s[1..];
      ([s[0]], s[1..])
    else ([], s)
  }

  /** The fraction part `\.\d+` at the start of `s`, if there is one (empty otherwise), and
      the text after it. */
  function FracPart(s: string): (r: (string, string))
    ensures AllDigits(r.0) && FracText(r.0) + r.1 == s
    ensures r.0 != [] ==> r.1 == [] || !IsDigit(r.1[0])
  {
    if |s| >= 2 && s[0] == '.' && IsDigit(s[1]) then
      var (d, rest) := DigitRun(s[1..]);
      assert s == [s[0]] + s[1..];
      assert "." + d + rest == "." + (d + rest);
      (d, rest)
    else ([], s)
  }

  /** The exponent part `[eE][+-]?\d+` at the start of `s`, if there is one, and the text
      after it. */
  function ExponentPart(s: string): (r: (Option<Exponent>, string))
    ensures r.0.None? ==> r.1 == s
    ensures r.0.Some? ==> && ExponentWellFormed(r.0.value) && ExponentText(r.0.value) + r.1 == s
                          && (r.1 == [] || !IsDigit(r.1[0]))
  {
    if s != [] && (s[0] == 'e' || s[0] == 'E') then
      var (sign, t) := SignPart(s[1..]);
      if t != [] && IsDigit(t[0]) then
        var (d, rest) := DigitRun(t);
        assert s == [s[0]] + s[1..];
        assert [s[0]] + sign + d + rest == [s[0]] + (sign + (d + rest));
        (Some(Exponent(s[0], sign, d)), rest)
      else (None, s)
    else (None, s)
  }

  /** Concatenation regrouped to the right. */
  lemma Reassociate(a: string, b: string, c: string, d: string, e: string)
    ensures a + b + c + d + e == a + (b + (c + (d + e)))
  {
  }

  /** `re.match(r"[+-]?\d+(\.\d+)?([eE][+-]?\d+)?", s)`: the numeral at the start of `s` and
      the text after it, or `None` when `s` does not start with one. */
  function PrefixMatch(s: string): (r: Option<(Numeral, string)>)
    ensures r.Some? ==> WellFormed(r.value.0) && Text(r.value.0) + r.value.1 == s
  {
    var (sign, s1) := SignPart(s);
    var (whole, s2) := DigitRun(s1);
    if whole == [] then None
    else
      var (frac, s3) := FracPart(s2);
      var (x, rest) := ExponentPart(s3);
      var n := Numeral(sign, whole, frac, x);
      Reassociate(sign, whole, FracText(frac), OptExponentText(x), rest);
      Some((n, rest))
  }

  /** The text after a numeral does not continue it: no further digit, no `.digit` after a
      numeral without fraction or exponent, and no exponent after one without exponent. */
  predicate Stops(n: Numeral, rest: string) {
    && (rest == [] || !IsDigit(rest[0]))
    && (n.frac == [] && n.exponent.None? ==> !StartsFraction(rest))
    && (n.exponent.None? ==> !StartsExponent(rest))
  }

  predicate StartsFraction(t: string) {
    |t| >= 2 && t[0] == '.' && IsDigit(t[1])
  }

  predicate StartsExponent(t: string) {
    && |t| >= 2 && (t[0] == 'e' || t[0] == 'E')
    && (IsDigit(t[1]) || (|t| >= 3 && (t[1] == '+' || t[1] == '-') && IsDigit(t[2])))
  }

  /** A run of digits followed by a non-digit (or nothing) is the run `DigitRun` takes. */
  lemma {:induction false} DigitRunOf(d: string, rest: string)
    requires AllDigits(d) && (rest == [] || !IsDigit(rest[0]))
    ensures DigitRun(d + rest) == (d, rest)
  {
    if d != [] {
      var s := d + rest;
      assert s[0] == d[0] && s[1..] == d[1..] + rest;
      assert AllDigits(d[1..]);
      DigitRunOf(d[1..], rest);
      assert DigitRun(s) == ([s[0]] + d[1..], rest);
      assert [d[0]] + d[1..] == d;
    } else {
      assert d + rest == rest;
    }
  }

  /** A sign followed by a digit is the sign `SignPart` takes. */
  lemma SignPartOf(sign: string, rest: string)
    requires IsSign(sign) && rest != [] && IsDigit(rest[0])
    ensures SignPart(sign + rest) == (sign, rest)
  {
    if sign != [] {
      assert (sign + rest)[0] == sign[0] && [sign[0]] == sign;
      assert (sign + rest)[1..] == rest;
    } else {
      assert sign + rest == rest;
    }
  }

  /** A fraction part followed by text that does not continue it is the part `FracPart`
      takes. */
  lemma FracPartOf(frac: string, rest: string)
    requires AllDigits(frac)
    requires frac == [] ==> !StartsFraction(rest)
    requires frac != [] ==> rest == [] || !IsDigit(rest[0])
    ensures FracPart(FracText(frac) + rest) == (frac, rest)
  {
    if frac != [] {
      var s := FracText(frac) + rest;
      assert s[0] == '.' && s[1] == frac[0];
      assert s[1..] == frac + rest;
      DigitRunOf(frac, rest);
    } else {
      assert FracText(frac) + rest == rest;
    }
  }

  /** An exponent part followed by a non-digit (or nothing) is the part `ExponentPart` takes. */
  lemma ExponentPartOf(x: Exponent, rest: string)
    requires ExponentWellFormed(x) && (rest == [] || !IsDigit(rest[0]))
    ensures ExponentPart(ExponentText(x) + rest) == (Some(x), rest)
  {
    var s := ExponentText(x) + rest;
    assert s[0] == x.marker;
    assert s[1..] == x.sign + (x.digits + rest);
    assert (x.digits + rest)[0] == x.digits[0];
    SignPartOf(x.sign, x.digits + rest);
    DigitRunOf(x.digits, rest);
  }

  /** Text that does not start an exponent is left alone by `ExponentPart`. */
  lemma NoExponentPart(rest: string)
    requires !StartsExponent(rest)
    ensures ExponentPart(rest) == (None, rest)
  {
    if rest != [] && (rest[0] == 'e' || rest[0] == 'E') {
      var t := rest[1..];
      if t != [] {
        assert t[0] == rest[1];
        if |t| >= 2 {
          assert t[1] == rest[2];
        }
      }
    }
  }

  /** What follows the whole digits of a numeral does not start with a digit. */
  lemma AfterWholeStops(n: Numeral, rest: string)
    requires WellFormed(n) && Stops(n, rest)
    ensures var t := FracText(n.frac) + (OptExponentText(n.exponent) + rest);
            t == [] || !IsDigit(t[0])
  {
    var x := OptExponentText(n.exponent);
    var t := FracText(n.frac) + (x + rest);
    if n.frac != [] {
      assert t[0] == '.';
    } else if x != [] {
      assert t[0] == x[0];
    }
  }

  /** What follows the fraction of a numeral is no continuation of it. */
  lemma AfterFracStops(n: Numeral, rest: string)
    requires WellFormed(n) && Stops(n, rest)
    ensures var t := OptExponentText(n.exponent) + rest;
            && (n.frac == [] ==> !StartsFraction(t))
            && (n.frac != [] ==> t == [] || !IsDigit(t[0]))
  {
    var x := OptExponentText(n.exponent);
    if x != [] {
      assert (x + rest)[0] == x[0];
    }
  }

  /** A numeral, written out and followed by text that does not continue it, reads back as
      itself: `PrefixMatch` inverts `Text`. */
  lemma PrefixMatchOfText(n: Numeral, rest: string)
    requires WellFormed(n) && Stops(n, rest)
    ensures PrefixMatch(Text(n) + rest) == Some((n, rest))
  {
    var afterFrac := OptExponentText(n.exponent) + rest;
    var afterWhole := FracText(n.frac) + afterFrac;
    var afterSign := n.whole + afterWhole;
    Reassociate(n.sign, n.whole, FracText(n.frac), OptExponentText(n.exponent), rest);
    assert afterSign[0] == n.whole[0];
    SignPartOf(n.sign, afterSign);
    AfterWholeStops(n, rest);
    DigitRunOf(n.whole, afterWhole);
    AfterFracStops(n, rest);
    FracPartOf(n.frac, afterFrac);
    match n.exponent {
      case Some(y) => ExponentPartOf(y, rest);
      case None =>
        assert afterFrac == rest;
        NoExponentPart(rest);
    }
  }

  /** A numeral without fraction or exponent denotes its whole digits, signed. */
  lemma ValueOfInteger(n: Numeral)
    requires WellFormed(n) && n.frac == [] && n.exponent.None?
    ensures Value(n) == if n.sign == "-" then -(DigitsValue(n.whole) as real)
                        else DigitsValue(n.whole) as real
  {
  }
}
