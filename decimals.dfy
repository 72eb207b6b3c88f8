/**
 * Python's `decimal.Decimal` as far as the cache needs it: exact decimal
 * numbers, and the conversion `Decimal(str)` for finite numbers written in
 * plain or scientific notation.
 */
module Decimals {
  import opened Wrappers
  import PyStrings

  /** A finite decimal: `coefficient` × 10^`exponent`. As in Python, "-4.50"
      and "-4.5" are different representations of the same number. */
  datatype Decimal = Decimal(coefficient: int, exponent: int)

  function Pow10(n: nat): (r: nat)
    ensures r >= 1
  {
    if n == 0 then 1 else 10 * Pow10(n - 1)
  }

  /** The number a decimal stands for. */
  ghost function ToReal(d: Decimal): real {
    if d.exponent >= 0 then (d.coefficient * Pow10(d.exponent)) as real
    else d.coefficient as real / Pow10(-d.exponent) as real
  }

  predicate IsDigit(c: char) {
    '0' <= c <= '9'
  }

  predicate AllDigits(s: string) {
    forall i :: 0 <= i < |s| ==> IsDigit(s[i])
  }

  function DigitValue(c: char): nat
    requires IsDigit(c)
  {
    c as int - '0' as int
  }

  function DigitChar(n: nat): (c: char)
    requires n < 10
    ensures IsDigit(c) && DigitValue(c) == n
  {
    ('0' as int + n) as char
  }

  /** The value of a string of decimal digits, most significant first. */
  function DigitsValue(s: string): nat
    requires AllDigits(s)
  {
    if s == [] then 0 else DigitsValue(s[..|s| - 1]) * 10 + DigitValue(s[|s| - 1])
  }

  /** The shortest decimal numeral of `n`. */
  function NatDigits(n: nat): (s: string)
    ensures s != [] && AllDigits(s)
  {
    if n < 10 then [DigitChar(n)] else NatDigits(n / 10) + [DigitChar(n % 10)]
  }

  function Zeros(n: nat): (s: string)
    ensures |s| == n && AllDigits(s)
    ensures forall i :: 0 <= i < n ==> s[i] == '0'
  {
    if n == 0 then [] else Zeros(n - 1) + ['0']
  }

  /** The first position of `c` in `s`, or `|s|` when there is none. */
  function IndexOf(s: string, c: char): (i: nat)
    ensures i <= |s| && (i < |s| ==> s[i] == c)
    ensures forall j :: 0 <= j < i ==> s[j] != c
  {
    if s == [] then 0 else if s[0] == c then 0 else 1 + IndexOf(s[1..], c)
  }

  /** The first position of an exponent marker `e` or `E`, or `|s|`. */
  function IndexOfExponent(s: string): (i: nat)
    ensures i <= |s| && (i < |s| ==> s[i] == 'e' || s[i] == 'E')
    ensures forall j :: 0 <= j < i ==> s[j] != 'e' && s[j] != 'E'
  {
    if s == [] then 0 else if s[0] == 'e' || s[0] == 'E' then 0 else 1 + IndexOfExponent(s[1..])
  }

  /** An optionally signed, non-empty run of digits: the exponent after `E`. */
  function ParseExponent(s: string): (r: Option<int>)
    ensures r.Some? ==> |s| > 0
  {
    var neg := |s| > 0 && s[0] == '-';
    var digits := if |s| > 0 && (s[0] == '-' || s[0] == '+') then s[1..] else s;
    if digits == [] || !AllDigits(digits) then None
    else Some(if neg then -(DigitsValue(digits) as int) else DigitsValue(digits))
  }

  /**
   * `Decimal(s)` for a string: surrounding white space is ignored, then an
   * optional sign, an integer part and an optional fraction with at least one
   * digit between them, and an optional exponent. The coefficient is every
   * digit written, so no digit is lost or rounded. A string that is not such
   * a number gives None (Python raises InvalidOperation).
   */
  function Parse(s: string): (r: Option<Decimal>)
    ensures r.Some? ==> PyStrings.Strip(s) != []
  {
    ParseStripped(PyStrings.Strip(s))
  }

  /** `Parse` once the white space is gone: the sign, then the rest. */
  function ParseStripped(t: string): Option<Decimal> {
    var neg := |t| > 0 && t[0] == '-';
    var body := if |t| > 0 && (t[0] == '-' || t[0] == '+') then t[1..] else t;
    Signed(neg, ParseUnsigned(body))
  }

  function Signed(neg: bool, p: Option<(nat, int)>): Option<Decimal> {
    match p
    case None => None
    case Some(p) => Some(Decimal(if neg then -(p.0 as int) else p.0, p.1))
  }

  /** The unsigned part of a number: its magnitude (every digit written, the
      point ignored) and its exponent. */
  function ParseUnsigned(body: string): Option<(nat, int)> {
    var e := IndexOfExponent(body);
    var exp := if e < |body| then ParseExponent(body[e + 1..]) else Some(0);
    match exp
    case None => None
    case Some(x) => Scaled(ParseMantissa(body[..e]), x)
  }

  /** The digits around an optional point: the magnitude and the number of
      fraction digits. At least one digit is needed, on either side. */
  function ParseMantissa(m: string): Option<(nat, nat)> {
    var dot := IndexOf(m, '.');
    var intPart := m[..dot];
    var fracPart := if dot < |m| then m[dot + 1..] else [];
    if !AllDigits(intPart) || !AllDigits(fracPart) || |intPart| + |fracPart| == 0 then None
    else Some((DigitsValue(intPart + fracPart), |fracPart|))
  }

  function Scaled(m: Option<(nat, nat)>, exp: int): Option<(nat, int)> {
    match m
    case None => None
    case Some(p) => Some((p.0, exp - p.1))
  }

  /** A decimal written out: "-4.50" for Decimal(-450, -2), "0.005" for
      Decimal(5, -3), "12E+3" for Decimal(12, 3). */
  function Render(d: Decimal): (s: string)
    ensures s != []
  {
    (if d.coefficient < 0 then "-" else "") + RenderBody(d)
  }

  function Magnitude(d: Decimal): nat {
    if d.coefficient < 0 then -d.coefficient else d.coefficient
  }

  /** What `Render` writes after the sign. */
  function RenderBody(d: Decimal): (s: string)
    ensures s != []
  {
    var digits := NatDigits(Magnitude(d));
    if d.exponent > 0 then digits + "E+" + NatDigits(d.exponent)
    else if d.exponent == 0 then digits
    else
      PointAt(Padded(digits, -d.exponent), -d.exponent)
  }

  /** `s` with a point inserted before its last `k` characters. */
  function PointAt(s: string, k: nat): (r: string)
    requires |s| > k
    ensures |r| == |s| + 1 && r[|s| - k] == '.'
  {
    s[..|s| - k] + "." + s[|s| - k..]
  }

  /** `digits` with enough leading zeros to leave a digit before the point
      when `k` fraction digits follow it. */
  function Padded(digits: string, k: nat): (s: string)
    ensures |s| > k
  {
    (if |digits| <= k then Zeros(k + 1 - |digits|) else []) + digits
  }

  // ---------------- digit-string arithmetic ---------------- //

  lemma {:induction false} DigitsValueAppend(a: string, b: string)
    requires AllDigits(a) && AllDigits(b)
    ensures AllDigits(a + b)
    ensures DigitsValue(a + b) == DigitsValue(a) * Pow10(|b|) + DigitsValue(b)
    decreases |b|
  {
    AllDigitsAppend(a, b);
    if b == [] {
      assert a + b == a;
    } else {
      var b' := b[..|b| - 1];
      assert (a + b)[..|a + b| - 1] == a + b';
      DigitsValueAppend(a, b');
      DigitsValueStep(DigitsValue(a), Pow10(|b'|), DigitsValue(b'), DigitValue(b[|b| - 1]));
    }
  }

  lemma AllDigitsAppend(a: string, b: string)
    requires AllDigits(a) && AllDigits(b)
    ensures AllDigits(a + b)
  {
    forall i | 0 <= i < |a + b| ensures IsDigit((a + b)[i]) {
      if i < |a| { assert (a + b)[i] == a[i]; } else { assert (a + b)[i] == b[i - |a|]; }
    }
  }

  lemma DigitsValueStep(x: int, p: int, y: int, c: int)
    ensures (x * p + y) * 10 + c == x * (p * 10) + (y * 10 + c)
  {
  }

  lemma {:induction false} ZerosValue(n: nat)
    ensures DigitsValue(Zeros(n)) == 0
  {
    if n > 0 {
      assert Zeros(n)[..n - 1] == Zeros(n - 1);
      ZerosValue(n - 1);
    }
  }

  /** Leading zeros do not change the value of a numeral. */
  lemma LeadingZeros(n: nat, s: string)
    requires AllDigits(s)
    ensures AllDigits(Zeros(n) + s) && DigitsValue(Zeros(n) + s) == DigitsValue(s)
  {
    DigitsValueAppend(Zeros(n), s);
    ZerosValue(n);
  }

  lemma {:induction false} NatDigitsValue(n: nat)
    ensures DigitsValue(NatDigits(n)) == n
  {
    if n >= 10 {
      NatDigitsValue(n / 10);
      var s := NatDigits(n);
      assert s[..|s| - 1] == NatDigits(n / 10);
    }
  }

  lemma ExponentRoundTrip(n: nat)
    ensures ParseExponent("+" + NatDigits(n)) == Some(n)
  {
    NatDigitsValue(n);
    assert ("+" + NatDigits(n))[1..] == NatDigits(n);
  }

  // ---------------- the round trip ---------------- //

  /** Parsing is exact: every decimal, written out, parses back to itself,
      coefficient and exponent alike (so "-4.50" keeps its two places). */
  lemma ParseRender(d: Decimal)
    ensures Parse(Render(d)) == Some(d)
  {
    var neg := d.coefficient < 0;
    RenderBodyShape(d);
    ParseSigned(if neg then "-" else "", RenderBody(d), neg);
    RenderBodyParses(d);
  }

  /** White space around a written decimal is ignored: `Decimal(" 4.50 ")`
      is `Decimal("4.50")`. */
  lemma ParsePadded(lead: string, d: Decimal, trail: string)
    requires PyStrings.AllSpace(lead) && PyStrings.AllSpace(trail)
    ensures Parse(lead + Render(d) + trail) == Some(d)
  {
    var r := Render(d);
    RenderBodyShape(d);
    assert r[|r| - 1] == RenderBody(d)[|RenderBody(d)| - 1];
    assert r[0] == '-' || r[0] == RenderBody(d)[0];
    PyStrings.StripPadded(lead, r, trail);
    PyStrings.StripUnpadded(r);
    ParseRender(d);
  }

  lemma RenderBodyShape(d: Decimal)
    ensures IsDigit(RenderBody(d)[0]) && IsDigit(RenderBody(d)[|RenderBody(d)| - 1])
  {
    var digits := NatDigits(Magnitude(d));
    if d.exponent > 0 {
      var b := digits + "E+" + NatDigits(d.exponent);
      assert b[0] == digits[0];
      assert b[|b| - 1] == NatDigits(d.exponent)[|NatDigits(d.exponent)| - 1];
    } else if d.exponent < 0 {
      var padded := Padded(digits, -d.exponent);
      PaddedValue(digits, -d.exponent);
      var b := PointAt(padded, -d.exponent);
      assert b[0] == padded[0];
      assert b[|b| - 1] == padded[|padded| - 1];
    }
  }

  lemma RenderBodyParses(d: Decimal)
    ensures ParseUnsigned(RenderBody(d)) == Some((Magnitude(d), d.exponent))
  {
    NatDigitsValue(Magnitude(d));
    if d.exponent > 0 {
      ParseScientific(NatDigits(Magnitude(d)), d.exponent);
    } else if d.exponent == 0 {
      var digits := NatDigits(Magnitude(d));
      NoExponent(digits);
      MantissaInteger(digits);
    } else {
      ParseFixedPoint(d);
    }
  }

  lemma ParseSigned(sign: string, body: string, neg: bool)
    requires sign == (if neg then "-" else "")
    requires body != [] && IsDigit(body[0]) && IsDigit(body[|body| - 1])
    ensures Parse(sign + body) == Signed(neg, ParseUnsigned(body))
  {
    var s := sign + body;
    assert s[|s| - 1] == body[|body| - 1];
    if neg {
      assert s == "-" + body;
      ParseNegative(body);
    } else {
      assert s == body;
      ParseUnpadded(body);
    }
  }

  lemma ParseUnpadded(s: string)
    requires s != [] && IsDigit(s[0]) && IsDigit(s[|s| - 1])
    ensures Parse(s) == Signed(false, ParseUnsigned(s))
  {
    PyStrings.StripUnpadded(s);
  }

  lemma ParseNegative(body: string)
    requires body != [] && IsDigit(body[|body| - 1])
    ensures Parse("-" + body) == Signed(true, ParseUnsigned(body))
  {
    StripNegative(body);
    SignNegative(body);
  }

  lemma StripNegative(body: string)
    requires body != [] && IsDigit(body[|body| - 1])
    ensures Parse("-" + body) == ParseStripped("-" + body)
  {
    var s := "-" + body;
    assert s[|s| - 1] == body[|body| - 1];
    PyStrings.StripUnpadded(s);
  }

  lemma SignNegative(body: string)
    ensures ParseStripped("-" + body) == Signed(true, ParseUnsigned(body))
  {
    assert ("-" + body)[1..] == body;
  }

  lemma ParseScientific(digits: string, e: nat)
    requires digits != [] && AllDigits(digits)
    ensures ParseUnsigned(digits + "E+" + NatDigits(e)) == Some((DigitsValue(digits), e as int))
  {
    var body := digits + "E+" + NatDigits(e);
    var n := |digits|;
    assert body[n] == 'E';
    assert forall j :: 0 <= j < n ==> body[j] == digits[j];
    assert IndexOfExponent(body) == n;
    assert body[..n] == digits;
    assert body[n + 1..] == "+" + NatDigits(e);
    ExponentRoundTrip(e);
    MantissaInteger(digits);
  }

  lemma ParseFixedPoint(d: Decimal)
    requires d.exponent < 0
    ensures ParseUnsigned(RenderBody(d)) == Some((DigitsValue(NatDigits(Magnitude(d))), d.exponent))
  {
    var digits := NatDigits(Magnitude(d));
    var k: nat := -d.exponent;
    var padded := Padded(digits, k);
    assert RenderBody(d) == PointAt(padded, k);
    assert AllDigits(padded) && DigitsValue(padded) == DigitsValue(digits) by { PaddedValue(digits, k); }
    assert ParseUnsigned(PointAt(padded, k)) == Some((DigitsValue(padded), -(k as int))) by { ParsePointAt(padded, k); }
  }

  lemma ParsePointAt(s: string, k: nat)
    requires |s| > k && AllDigits(s)
    ensures ParseUnsigned(PointAt(s, k)) == Some((DigitsValue(s), -(k as int)))
  {
    var ip, fp := s[..|s| - k], s[|s| - k..];
    PointAtParts(s, k);
    PointNoExponent(ip, fp);
    MantissaFraction(ip, fp);
  }

  lemma PointAtParts(s: string, k: nat)
    requires |s| > k && AllDigits(s)
    ensures PointAt(s, k) == s[..|s| - k] + "." + s[|s| - k..]
    ensures s[..|s| - k] + s[|s| - k..] == s && |s[|s| - k..]| == k && s[..|s| - k] != []
    ensures AllDigits(s[..|s| - k]) && AllDigits(s[|s| - k..])
  {
    var ip, fp := s[..|s| - k], s[|s| - k..];
    assert ip + fp == s;
    assert forall j :: 0 <= j < |ip| ==> ip[j] == s[j];
    assert forall j :: 0 <= j < |fp| ==> fp[j] == s[|s| - k + j];
  }

  lemma PointNoExponent(ip: string, fp: string)
    requires AllDigits(ip) && AllDigits(fp)
    ensures ParseUnsigned(ip + "." + fp) == Scaled(ParseMantissa(ip + "." + fp), 0)
  {
    var m := ip + "." + fp;
    forall j | 0 <= j < |m| ensures IsDigit(m[j]) || m[j] == '.' {
      if j < |ip| { assert m[j] == ip[j]; }
      else if j > |ip| { assert m[j] == fp[j - |ip| - 1]; }
    }
    NoExponent(m);
  }

  lemma PaddedValue(digits: string, k: nat)
    requires AllDigits(digits)
    ensures AllDigits(Padded(digits, k)) && DigitsValue(Padded(digits, k)) == DigitsValue(digits)
  {
    var zeros := if |digits| <= k then Zeros(k + 1 - |digits|) else [];
    LeadingZeros(|zeros|, digits);
    assert zeros == Zeros(|zeros|);
  }

  lemma NoExponent(body: string)
    requires forall j :: 0 <= j < |body| ==> IsDigit(body[j]) || body[j] == '.'
    ensures ParseUnsigned(body) == Scaled(ParseMantissa(body), 0)
  {
    assert IndexOfExponent(body) == |body|;
    assert body[..|body|] == body;
  }

  lemma MantissaInteger(digits: string)
    requires digits != [] && AllDigits(digits)
    ensures ParseMantissa(digits) == Some((DigitsValue(digits), 0))
  {
    assert IndexOf(digits, '.') == |digits|;
    assert digits[..|digits|] == digits;
    assert digits + [] == digits;
  }

  lemma MantissaFraction(ip: string, fp: string)
    requires AllDigits(ip) && AllDigits(fp) && ip != []
    ensures ParseMantissa(ip + "." + fp) == Some((DigitsValue(ip + fp), |fp|))
  {
    var m := ip + "." + fp;
    assert m[|ip|] == '.';
    assert forall j :: 0 <= j < |ip| ==> m[j] == ip[j];
    assert IndexOf(m, '.') == |ip|;
    assert m[..|ip|] == ip;
    assert m[|ip| + 1..] == fp;
  }
}
