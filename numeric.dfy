/** PHP 8's reading of numbers out of strings: the numeric prefix of a
    string as `is_numeric_string` finds it, the `(int)` cast built on it
    (fraction and exponent honoured, truncation toward zero, saturation at
    the 64-bit ends), whole numeric strings, and the loose comparison of an
    integer with a string. Values are exact rationals, not doubles. */
module Numeric {
  import opened Php

  /** The ends of PHP's 64-bit integers. */
  const IntMax: int := 0x7FFF_FFFF_FFFF_FFFF
  const IntMin: int := -0x8000_0000_0000_0000

  /** A number stored in a PHP integer from a float: beyond the 64-bit range
      it sticks at the nearer end. */
  function Saturate(x: int): (r: int)
    ensures IntMin <= r <= IntMax
    ensures IntMin <= x <= IntMax ==> r == x
    ensures x > IntMax ==> r == IntMax
    ensures x < IntMin ==> r == IntMin
  {
    if x > IntMax then IntMax else if x < IntMin then IntMin else x
  }

  function Pow10(e: nat): (p: nat)
    ensures p >= 1
  {
    if e == 0 then 1 else 10 * Pow10(e - 1)
  }

  function Sign(x: int): (c: int)
    ensures -1 <= c <= 1
    ensures (c < 0 <==> x < 0) && (c > 0 <==> x > 0)
  {
    if x < 0 then -1 else if x > 0 then 1 else 0
  }

  /** A decimal number read from the head of a string: its sign, its digits
      with the point left out read as one integer, the power of ten that
      scales them, and the number of characters it takes. */
  datatype Numeral =
    | NoNumber
    | Number(negative: bool, mantissa: nat, scale: int, length: nat)

  /** Two digit strings one after the other. */
  function Joined(a: string, b: string): (s: string)
    requires AllDigits(a) && AllDigits(b)
    ensures s == a + b && AllDigits(s)
  {
    assert forall i :: |a| <= i < |a + b| ==> (a + b)[i] == b[i - |a|];
    a + b
  }

  /** The exponent `e<digits>`, `E+<digits>` or `e-<digits>` at the head of
      `r`, with the number of characters it takes; (0, 0) when `r` does not
      start with one. */
  function Exponent(r: string): (x: (int, nat))
    ensures x.1 <= |r|
    ensures x.1 > 0 ==> x.1 >= 2 && (r[0] == 'e' || r[0] == 'E')
    ensures x.1 == 0 ==> x.0 == 0
  {
    if |r| < 2 || (r[0] != 'e' && r[0] != 'E') then (0, 0)
    else if IsDigit(r[1]) then
      var d := LeadingDigits(r[1..]);
      (DigitsValue(r[1..][..d]), 1 + d)
    else if |r| >= 3 && (r[1] == '+' || r[1] == '-') && IsDigit(r[2]) then
      var d := LeadingDigits(r[2..]);
      var e: int := DigitsValue(r[2..][..d]);
      (if r[1] == '-' then -e else e, 2 + d)
    else (0, 0)
  }

  /** Whether `u` starts with a digit, or with a point followed by a digit. */
  predicate StartsDigits(u: string)
  {
    (|u| > 0 && IsDigit(u[0])) || (|u| > 1 && u[0] == '.' && IsDigit(u[1]))
  }

  predicate Signed(t: string) { |t| > 0 && (t[0] == '-' || t[0] == '+') }

  /** `t` without its leading sign, if any. */
  function Unsigned(t: string): (u: string)
    ensures |u| <= |t| && u == t[|t| - |u|..]
  {
    if Signed(t) then t[1..] else t
  }

  /** Whether `t` starts with a number: after an optional sign, a digit, or
      a point followed by a digit. */
  predicate StartsNumber(t: string) { StartsDigits(Unsigned(t)) }

  /** The numeral worth `m` over `f` fraction digits that takes `len`
      characters before an exponent `e` (a value and its length). */
  function WithExponent(m: nat, f: nat, len: nat, e: (int, nat)): (r: Numeral)
    ensures r.Number? && !r.negative && r.length == len + e.1
  {
    Number(false, m, e.0 - f, len + e.1)
  }

  /** The numeral whose integer digits `a` and point are already read and
      whose fraction digits start `r`; `NoNumber` when there are digits on
      neither side of the point. */
  function FractionPart(a: string, r: string): (n: Numeral)
    requires AllDigits(a)
    ensures n.Number? <==> |a| > 0 || (|r| > 0 && IsDigit(r[0]))
    ensures n.Number? ==> !n.negative && |a| + 1 <= n.length <= |a| + 1 + |r|
  {
    var f := LeadingDigits(r);
    if |a| == 0 && f == 0 then NoNumber
    else WithExponent(DigitsValue(Joined(a, r[..f])), f, |a| + 1 + f, Exponent(r[f..]))
  }

  /** The unsigned number at the head of `u`: digits with at most one decimal
      point and at least one digit, then an optional exponent. */
  function UnsignedNumeral(u: string): (r: Numeral)
    ensures r.Number? ==> !r.negative && 0 < r.length <= |u|
    ensures r.Number? <==> StartsDigits(u)
  {
    var k := LeadingDigits(u);
    if k < |u| && u[k] == '.' then FractionPart(u[..k], u[k + 1..])
    else if k == 0 then NoNumber
    else WithExponent(DigitsValue(u[..k]), 0, k, Exponent(u[k..]))
  }

  /** The number at the head of `t`: an optional sign, then an unsigned
      number; `NoNumber` when `t` does not start that way. */
  function NumericPrefix(t: string): (r: Numeral)
    ensures r.Number? ==> 0 < r.length <= |t|
    ensures r.Number? <==> StartsNumber(t)
  {
    var r := UnsignedNumeral(Unsigned(t));
    if r.NoNumber? then NoNumber
    else Number(Signed(t) && t[0] == '-', r.mantissa, r.scale, |t| - |Unsigned(t)| + r.length)
  }

  /** A numeral's value is `Num(n) / Den(n)`: the signed mantissa scaled up
      by a non-negative power of ten, over the power of ten a negative scale
      divides by. */
  function Up(n: Numeral): nat
    requires n.Number?
  {
    if n.scale >= 0 then n.mantissa * Pow10(n.scale) else n.mantissa
  }

  function Num(n: Numeral): int
    requires n.Number?
  {
    if n.negative then -(Up(n) as int) else Up(n)
  }

  function Den(n: Numeral): (d: nat)
    requires n.Number?
    ensures d >= 1
  {
    if n.scale >= 0 then 1 else Pow10(-n.scale)
  }

  /** Euclidean division of `up` by `d`, given the sign `neg`, truncates the
      signed quotient toward zero. */
  lemma TruncBounds(up: nat, d: nat, neg: bool)
    requires d >= 1
    ensures var v: int := if neg then -(up as int) else up;
      var t := if neg then -(up / d) else up / d;
      (v >= 0 ==> t >= 0 && t * d <= v < (t + 1) * d)
      && (v < 0 ==> t <= 0 && (t - 1) * d < v <= t * d)
  {
    var q := up / d;
    DivBounds(up, d);
    if neg {
      Negated(q, d);
      Negated(q + 1, d);
      assert -q - 1 == -(q + 1);
    }
  }

  lemma DivBounds(m: nat, d: nat)
    requires d >= 1
    ensures (m / d) * d <= m < (m / d + 1) * d
  {
    var q := m / d;
    assert m == q * d + m % d;
    assert (q + 1) * d == q * d + d;
  }

  lemma Negated(q: int, d: int)
    ensures (-q) * d == -(q * d)
  {
  }

  /** A numeral's value truncated toward zero, as C's cast of a double to an
      integer does. */
  function Truncated(n: Numeral): (t: int)
    requires n.Number?
    ensures Num(n) >= 0 ==> t >= 0 && t * Den(n) <= Num(n) < (t + 1) * Den(n)
    ensures Num(n) < 0 ==> t <= 0 && (t - 1) * Den(n) < Num(n) <= t * Den(n)
  {
    var up := Up(n);
    var d := Den(n);
    TruncBounds(up, d, n.negative);
    if n.negative then -(up / d) else up / d
  }

  /** An unscaled numeral is its signed mantissa. */
  lemma Unscaled(n: Numeral)
    requires n.Number? && n.scale == 0
    ensures Den(n) == 1 && Num(n) == if n.negative then -(n.mantissa as int) else n.mantissa
    ensures Truncated(n) == Num(n)
  {
    assert Pow10(0) == 1;
    assert Up(n) == n.mantissa;
  }

  /** PHP's `(int)` cast of a string: leading white space is skipped, the
      numeric prefix is read with its fraction and exponent, and everything
      after it is ignored; the value is truncated toward zero and sticks at
      the 64-bit ends; a string that does not start with a number gives 0. */
  function IntOfString(s: string): (r: int)
    ensures IntMin <= r <= IntMax
    ensures !StartsNumber(DropSpaces(s)) ==> r == 0
    ensures StartsNumber(DropSpaces(s)) ==> r == Saturate(Truncated(NumericPrefix(DropSpaces(s))))
  {
    var n := NumericPrefix(DropSpaces(s));
    if n.NoNumber? then 0 else Saturate(Truncated(n))
  }

  predicate AllSpaces(s: string) { forall i :: 0 <= i < |s| ==> IsSpace(s[i]) }

  /** PHP's `is_numeric` for strings: white space, a number, and nothing
      after it but white space. */
  predicate IsNumeric(s: string)
  {
    var t := DropSpaces(s);
    var n := NumericPrefix(t);
    n.Number? && AllSpaces(t[n.length..])
  }

  /** The three-way comparison of an integer with a numeral's exact value. */
  function CompareToNumeral(x: int, n: Numeral): (c: int)
    requires n.Number?
    ensures -1 <= c <= 1
    ensures (c < 0 <==> x * Den(n) < Num(n)) && (c > 0 <==> x * Den(n) > Num(n))
  {
    Sign(x * Den(n) - Num(n))
  }

  /** `strcmp` normalised to -1, 0 or 1: the first differing character
      decides, and a proper prefix comes first. */
  function CompareText(a: string, b: string): (c: int)
    ensures -1 <= c <= 1
    ensures c == 0 <==> a == b
  {
    if a == [] && b == [] then 0
    else if a == [] then -1
    else if b == [] then 1
    else if a[0] < b[0] then -1
    else if a[0] > b[0] then 1
    else
      assert a == [a[0]] + a[1..] && b == [b[0]] + b[1..];
      CompareText(a[1..], b[1..])
  }

  lemma {:induction false} LeadingAllDigits(s: string)
    requires AllDigits(s)
    ensures LeadingDigits(s) == |s|
    decreases |s|
  {
    if s != [] {
      LeadingAllDigits(s[1..]);
    }
  }

  /** The leading digits of digits followed by something else are exactly
      those digits. */
  lemma {:induction false} LeadingDigitsOf(a: string, rest: string)
    requires AllDigits(a)
    requires rest == [] || !IsDigit(rest[0])
    ensures LeadingDigits(a + rest) == |a|
    decreases |a|
  {
    if a != [] {
      assert (a + rest)[1..] == a[1..] + rest;
      LeadingDigitsOf(a[1..], rest);
    }
  }

  lemma Halves<T>(x: seq<T>, y: seq<T>)
    ensures (x + y)[..|x|] == x && (x + y)[|x|..] == y
  {
  }

  /** Digits worth `m` without a point: their value, scaled by the exponent
      `e` that follows, if any. */
  lemma IntegerNumeral(a: string, rest: string, m: nat, e: (int, nat))
    requires a != [] && AllDigits(a)
    requires rest == [] || (!IsDigit(rest[0]) && rest[0] != '.')
    requires DigitsValue(a) == m && Exponent(rest) == e
    ensures UnsignedNumeral(a + rest) == Number(false, m, e.0, |a| + e.1)
  {
    var u := a + rest;
    LeadingDigitsOf(a, rest);
    assert u[..|a|] == a && u[|a|..] == rest;
    assert UnsignedNumeral(u) == WithExponent(m, 0, |a|, e);
  }

  /** Digits and a point: what follows the point is read as the fraction. */
  lemma PointSplit(a: string, br: string)
    requires AllDigits(a)
    ensures UnsignedNumeral(a + ("." + br)) == FractionPart(a, br)
  {
    var tail := "." + br;
    var u := a + tail;
    Halves(a, tail);
    LeadingDigitsOf(a, tail);
    assert u[|a|] == '.';
    assert u[|a| + 1..] == br by { assert u[|a| + 1..] == tail[1..]; }
  }

  lemma FractionSplit(a: string, b: string, rest: string, m: nat)
    requires AllDigits(a) && AllDigits(b) && |a| + |b| > 0
    requires rest == [] || !IsDigit(rest[0])
    requires DigitsValue(Joined(a, b)) == m
    ensures FractionPart(a, b + rest) == WithExponent(m, |b|, |a| + 1 + |b|, Exponent(rest))
  {
    Halves(b, rest);
    LeadingDigitsOf(b, rest);
  }

  /** Digits, a point and digits, together worth `m`: that value, scaled
      down by the number of fraction digits and by the exponent `e` that
      follows. */
  lemma DecimalNumeral(a: string, b: string, rest: string, m: nat, e: (int, nat))
    requires AllDigits(a) && AllDigits(b) && |a| + |b| > 0
    requires rest == [] || !IsDigit(rest[0])
    requires DigitsValue(Joined(a, b)) == m && Exponent(rest) == e
    ensures UnsignedNumeral(a + ("." + (b + rest))) == Number(false, m, e.0 - |b|, |a| + 1 + |b| + e.1)
  {
    PointSplit(a, b + rest);
    FractionSplit(a, b, rest, m);
  }

  /** A numeral after a sign: the same digits, the sign applied. */
  lemma SignedNumeral(sign: char, u: string)
    requires sign == '-' || sign == '+'
    requires StartsDigits(u)
    ensures var r := UnsignedNumeral(u);
      NumericPrefix([sign] + u) == Number(sign == '-', r.mantissa, r.scale, 1 + r.length)
  {
    var t := [sign] + u;
    assert t[0] == sign && t[1..] == u;
    assert Signed(t) && Unsigned(t) == u;
  }

  /** Without a sign the numeral is the unsigned one. */
  lemma PlainNumeral(u: string)
    requires |u| > 0 && u[0] != '-' && u[0] != '+'
    ensures NumericPrefix(u) == UnsignedNumeral(u)
  {
  }

  /** Digits worth `m` and nothing else: that value, unscaled. */
  lemma WholeInteger(a: string, m: nat)
    requires a != [] && AllDigits(a) && DigitsValue(a) == m
    ensures UnsignedNumeral(a) == Number(false, m, 0, |a|)
  {
    LeadingAllDigits(a);
    assert a[..|a|] == a && a[|a|..] == [];
  }

  /** The decimal form of an integer read back as a numeral: exactly that
      integer, unscaled, taking the whole string, which has no leading white
      space. */
  lemma NumeralOfDecimalString(y: int)
    ensures DropSpaces(DecimalString(y)) == DecimalString(y)
    ensures NumericPrefix(DecimalString(y)) == Number(y < 0, if y < 0 then -y else y, 0, |DecimalString(y)|)
  {
    var m: nat := if y < 0 then -y else y;
    var d := NatString(m);
    assert IsDigit(d[0]);
    DigitsValueOfNatString(m);
    WholeInteger(d, m);
    if y < 0 {
      Unpadded(DecimalString(y));
      SignedNumeral('-', d);
    } else {
      Unpadded(d);
      PlainNumeral(d);
    }
  }

  /** Casting the decimal form of an integer back gives it back, capped at the
      64-bit ends. */
  lemma IntOfDecimalString(y: int)
    ensures IntOfString(DecimalString(y)) == Saturate(y)
    ensures IntMin <= y <= IntMax ==> IntOfString(DecimalString(y)) == y
  {
    NumeralOfDecimalString(y);
    Unscaled(NumericPrefix(DecimalString(y)));
  }

  lemma IntOfNatString(n: nat)
    ensures IntOfString(NatString(n)) == Saturate(n)
  {
    assert DecimalString(n) == NatString(n);
    IntOfDecimalString(n);
  }

  /** The decimal form of an integer is numeric, and its numeral is that
      integer, unscaled. */
  lemma DecimalValue(y: int)
    ensures IsNumeric(DecimalString(y))
    ensures var n := NumericPrefix(DropSpaces(DecimalString(y)));
      n.Number? && n.scale == 0 && Num(n) == y
  {
    DecimalIsNumeric(y);
    NumeralOfDecimalString(y);
    Unscaled(NumericPrefix(DecimalString(y)));
  }

  /** The decimal form of an integer is a numeric string. */
  lemma DecimalIsNumeric(y: int)
    ensures IsNumeric(DecimalString(y))
  {
    NumeralOfDecimalString(y);
  }

  lemma Unpadded(s: string)
    requires s != [] && !IsSpace(s[0])
    ensures DropSpaces(s) == s
  {
  }

  /** Digits, white space, then something else: not a numeric string, as
      `is_numeric` allows only white space after the number. */
  lemma DigitsThenWords(s: string, k: nat)
    requires 0 < k < |s| - 1 && AllDigits(s[..k]) && IsSpace(s[k]) && !IsSpace(s[k + 1])
    ensures !IsNumeric(s)
  {
    var a, rest := s[..k], s[k..];
    assert s == a + rest;
    IntegerNumeral(a, rest, DigitsValue(a), (0, 0));
    var n := UnsignedNumeral(s);
    Unpadded(s);
    PlainNumeral(s);
    assert s[n.length..][1] == s[k + 1];
  }

  /** The cast of a string that starts with an unsigned numeral `n` worth
      `t` after truncation. */
  lemma CastOf(s: string, n: Numeral, t: int)
    requires s != [] && !IsSpace(s[0]) && s[0] != '-' && s[0] != '+'
    requires UnsignedNumeral(s) == n && n.Number? && Truncated(n) == t && IntMin <= t <= IntMax
    ensures IntOfString(s) == t
  {
    Unpadded(s);
    PlainNumeral(s);
  }

  /** A string that is one unsigned number from its first character to its
      last is numeric, and that number is its prefix. */
  lemma NumericOf(s: string, n: Numeral)
    requires s != [] && !IsSpace(s[0]) && s[0] != '-' && s[0] != '+'
    requires UnsignedNumeral(s) == n && n.Number? && n.length == |s|
    ensures IsNumeric(s) && NumericPrefix(DropSpaces(s)) == n
  {
    Unpadded(s);
    PlainNumeral(s);
    assert s[n.length..] == [];
  }

  const ThousandText: string := "1e3"
  const FractionText: string := "2.5e1"
  const PointText: string := "1.9"
  const PaddedDigits: string := "12abc"
  const PaddedText: string := [' '] + PaddedDigits
  const TextOnly: string := "abc"
  const BareExponent: string := "7e"
  const BarePoint: string := ".5"

  lemma ThousandNumeral()
    ensures UnsignedNumeral(ThousandText) == Number(false, 1, 3, 3)
  {
    assert ThousandText == "1" + "e3";
    assert DigitsValue("1") == 1;
    assert Exponent("e3") == (3, 2);
    IntegerNumeral("1", "e3", 1, (3, 2));
  }

  /** `1e3` is a thousand: the exponent counts. */
  lemma CastThousand()
    ensures IntOfString(ThousandText) == 1000
  {
    ThousandNumeral();
    OneThousand();
    CastOf(ThousandText, Number(false, 1, 3, 3), 1000);
  }

  lemma OneThousand()
    ensures Truncated(Number(false, 1, 3, 3)) == 1000
  {
    assert Pow10(3) == 1000;
    assert Up(Number(false, 1, 3, 3)) == 1000 && Den(Number(false, 1, 3, 3)) == 1;
  }

  /** A digit, a point and a digit, then anything but a digit: the two
      digits in tenths, scaled by the exponent that follows. */
  lemma DigitPointDigit(s: string)
    requires |s| >= 3 && IsDigit(s[0]) && s[1] == '.' && IsDigit(s[2])
    requires |s| == 3 || !IsDigit(s[3])
    ensures var e := Exponent(s[3..]);
      UnsignedNumeral(s) == Number(false, DigitValue(s[0]) * 10 + DigitValue(s[2]), e.0 - 1, 3 + e.1)
  {
    var a, b, rest := s[..1], s[2..3], s[3..];
    assert |a| == 1 && |b| == 1 && s == a + ("." + (b + rest));
    var j := Joined(a, b);
    assert j[0] == s[0] && j[1] == s[2];
    TwoDigits(j);
    DecimalNumeral(a, b, rest, DigitValue(s[0]) * 10 + DigitValue(s[2]), Exponent(rest));
  }

  lemma TwoDigits(j: string)
    requires |j| == 2 && AllDigits(j)
    ensures DigitsValue(j) == DigitValue(j[0]) * 10 + DigitValue(j[1])
  {
    assert j[..1][..0] == [];
    assert DigitsValue(j[..1]) == DigitValue(j[0]);
  }

  lemma FractionNumeral()
    ensures UnsignedNumeral(FractionText) == Number(false, 25, 0, 5)
  {
    assert FractionText[3..] == "e1";
    assert Exponent("e1") == (1, 2);
    DigitPointDigit(FractionText);
  }

  /** `2.5e1` is 25: the fraction digits and the exponent together. */
  lemma CastFraction()
    ensures IntOfString(FractionText) == 25
  {
    FractionNumeral();
    var m := Number(false, 25, 0, 5);
    Unscaled(m);
    CastOf(FractionText, m, 25);
  }

  lemma PointNumeral()
    ensures UnsignedNumeral(PointText) == Number(false, 19, -1, 3)
  {
    assert PointText[3..] == [];
    assert Exponent([]) == (0, 0);
    DigitPointDigit(PointText);
  }

  /** `1.9` is 1 and `-1.9` is -1: truncation toward zero, not down. */
  lemma CastTruncates()
    ensures IntOfString(PointText) == 1
    ensures IntOfString("-" + PointText) == -1
  {
    var n := Number(false, 19, -1, 3);
    PointNumeral();
    NineteenTenths();
    CastOf(PointText, n, 1);
    assert PointText[0] == '1';
    NegativeCastOf(PointText, n, -1);
  }

  lemma NineteenTenths()
    ensures Truncated(Number(false, 19, -1, 3)) == 1 && Truncated(Number(true, 19, -1, 4)) == -1
  {
    assert Pow10(1) == 10;
    assert Up(Number(false, 19, -1, 3)) == 19 && Den(Number(false, 19, -1, 3)) == 10;
    assert Up(Number(true, 19, -1, 4)) == 19 && Den(Number(true, 19, -1, 4)) == 10;
  }

  /** The cast of a minus sign before an unsigned number: that number,
      negated, then truncated. */
  lemma NegativeCastOf(u: string, n: Numeral, t: int)
    requires StartsDigits(u) && UnsignedNumeral(u) == n
    requires Truncated(Number(true, n.mantissa, n.scale, 1 + n.length)) == t && IntMin <= t <= IntMax
    ensures IntOfString("-" + u) == t
  {
    var s := "-" + u;
    assert s == ['-'] + u && s[0] == '-';
    Unpadded(s);
    SignedNumeral('-', u);
  }

  /** Leading white space does not change the cast. */
  lemma CastSkipsSpace(c: char, s: string)
    requires IsSpace(c)
    ensures IntOfString([c] + s) == IntOfString(s)
  {
    assert ([c] + s)[1..] == s;
  }

  lemma PaddedNumeral()
    ensures UnsignedNumeral(PaddedDigits) == Number(false, 12, 0, 2)
  {
    assert PaddedDigits == "12" + "abc";
    assert DigitsValue("12") == 12;
    assert Exponent("abc") == (0, 0);
    IntegerNumeral("12", "abc", 12, (0, 0));
  }

  /** ` 12abc` is 12: leading white space is skipped, trailing text ignored. */
  lemma CastPadded()
    ensures IntOfString(PaddedText) == 12
  {
    PaddedNumeral();
    var n := Number(false, 12, 0, 2);
    Unscaled(n);
    CastOf(PaddedDigits, n, 12);
    CastSkipsSpace(' ', PaddedDigits);
  }

  /** Text gives 0. */
  lemma CastText()
    ensures IntOfString(TextOnly) == 0
  {
    Unpadded(TextOnly);
    assert !StartsNumber(TextOnly);
  }

  /** A bare exponent mark adds nothing. */
  lemma CastBareExponent()
    ensures IntOfString(BareExponent) == 7
  {
    var n := Number(false, 7, 0, 1);
    assert UnsignedNumeral(BareExponent) == n by {
      assert BareExponent == "7" + "e";
      assert DigitsValue("7") == 7;
      assert Exponent("e") == (0, 0);
      IntegerNumeral("7", "e", 7, (0, 0));
    }
    Unscaled(n);
    CastOf(BareExponent, n, 7);
  }

  /** A point and one digit: that digit, in tenths. */
  lemma PointDigit(s: string)
    requires |s| == 2 && s[0] == '.' && IsDigit(s[1])
    ensures UnsignedNumeral(s) == Number(false, DigitValue(s[1]), -1, 2)
  {
    var b := s[1..];
    var e: (int, nat) := (0, 0);
    assert s == [] + ("." + (b + []));
    assert Joined([], b) == b && DigitsValue(b) == DigitValue(s[1]) by {
      assert b[..0] == [];
    }
    assert Exponent([]) == e;
    DecimalNumeral([], b, [], DigitValue(s[1]), e);
  }

  lemma BarePointNumeral()
    ensures UnsignedNumeral(BarePoint) == Number(false, 5, -1, 2)
  {
    assert BarePoint[1] == '5';
    PointDigit(BarePoint);
  }

  /** A bare fraction truncates to 0. */
  lemma CastBarePoint()
    ensures IntOfString(BarePoint) == 0
  {
    BarePointNumeral();
    FiveTenths();
    CastOf(BarePoint, Number(false, 5, -1, 2), 0);
  }

  lemma FiveTenths()
    ensures Truncated(Number(false, 5, -1, 2)) == 0
  {
    assert Pow10(1) == 10;
    assert Up(Number(false, 5, -1, 2)) == 5 && Den(Number(false, 5, -1, 2)) == 10;
  }

  /** Digits past the 64-bit range stick at its top. */
  lemma IntCastSaturates()
    ensures IntOfString(DecimalString(IntMax + 1)) == IntMax
    ensures IntOfString(DecimalString(IntMin - 1)) == IntMin
  {
    IntOfDecimalString(IntMax + 1);
    IntOfDecimalString(IntMin - 1);
  }
}
