/**
 * UTF-8 (section 3 of RFC 3629), the encoding Python's `str.encode()` uses
 * by default: every Unicode scalar value as one to four bytes, and the
 * decoder that reads them back.
 */
module Utf8 {
  import opened Wrappers

  type Byte = b: int | 0 <= b < 256

  /** A continuation byte: 10xxxxxx. */
  predicate IsContinuation(b: Byte) {
    0x80 <= b < 0xC0
  }

  /** The bytes of one character, shortest form. */
  function EncodeChar(c: char): (bs: seq<Byte>)
    ensures 1 <= |bs| <= 4
    ensures |bs| == 1 <==> (c as int) < 0x80
    ensures |bs| == 1 ==> bs[0] == c as int
    ensures forall i :: 1 <= i < |bs| ==> IsContinuation(bs[i])
  {
    var n := c as int;
    if n < 0x80 then [n]
    else if n < 0x800 then [0xC0 + n / 64, 0x80 + n % 64]
    else if n < 0x10000 then [0xE0 + n / 4096, 0x80 + (n / 64) % 64, 0x80 + n % 64]
    else [0xF0 + n / 262144, 0x80 + (n / 4096) % 64, 0x80 + (n / 64) % 64, 0x80 + n % 64]
  }

  /** `s.encode("utf-8")`. */
  function Encode(s: string): (bs: seq<Byte>)
    ensures |s| <= |bs| <= 4 * |s|
  {
    if s == [] then [] else EncodeChar(s[0]) + Encode(s[1..])
  }

  /** The scalar value a number stands for, if it is one. */
  predicate IsScalar(n: int) {
    0 <= n < 0xD800 || 0xE000 <= n < 0x110000
  }

  /** The character at the head of `bs` and how many bytes it takes; None
      for a malformed sequence (a stray continuation byte, a truncated
      sequence, an overlong form, a surrogate or a value past U+10FFFF). */
  function DecodeChar(bs: seq<Byte>): (r: Option<(char, nat)>)
    requires bs != []
    ensures r.Some? ==> 1 <= r.value.1 <= |bs|
  {
    var b0 := bs[0] as int;
    if b0 < 0x80 then Some((b0 as char, 1))
    else if 0xC2 <= b0 < 0xE0 && |bs| >= 2 && IsContinuation(bs[1]) then
      var n := (b0 - 0xC0) * 64 + (bs[1] as int - 0x80);
      Some((n as char, 2))
    else if 0xE0 <= b0 < 0xF0 && |bs| >= 3 && IsContinuation(bs[1]) && IsContinuation(bs[2]) then
      var n := (b0 - 0xE0) * 4096 + (bs[1] as int - 0x80) * 64 + (bs[2] as int - 0x80);
      if 0x800 <= n && IsScalar(n) then Some((n as char, 3)) else None
    else if 0xF0 <= b0 < 0xF5 && |bs| >= 4 && IsContinuation(bs[1]) && IsContinuation(bs[2]) && IsContinuation(bs[3]) then
      var n := (b0 - 0xF0) * 262144 + (bs[1] as int - 0x80) * 4096 + (bs[2] as int - 0x80) * 64 + (bs[3] as int - 0x80);
      if 0x10000 <= n < 0x110000 then Some((n as char, 4)) else None
    else None
  }

  /** `bs.decode("utf-8")`: None where Python raises `UnicodeDecodeError`. */
  function Decode(bs: seq<Byte>): Option<string>
    decreases |bs|
  {
    if bs == [] then Some([])
    else match DecodeChar(bs)
      case None => None
      case Some((c, k)) =>
        match Decode(bs[k..])
        case None => None
        case Some(rest) => Some([c] + rest)
  }

  /** The decoder reads back exactly the bytes of one encoded character. */
  lemma DecodeEncodedChar(c: char, rest: seq<Byte>)
    ensures DecodeChar(EncodeChar(c) + rest) == Some((c, |EncodeChar(c)|))
  {
    var n := c as int;
    if 0x80 <= n < 0x800 {
      DecodeTwo(c, rest);
    } else if 0x800 <= n < 0x10000 {
      DecodeThree(c, rest);
    } else if 0x10000 <= n {
      DecodeFour(c, rest);
    }
  }

  lemma DecodeTwo(c: char, rest: seq<Byte>)
    requires 0x80 <= c as int < 0x800
    ensures DecodeChar(EncodeChar(c) + rest) == Some((c, 2))
  {
    var n := c as int;
    var bs := EncodeChar(c) + rest;
    assert bs[0] == 0xC0 + n / 64 && bs[1] == 0x80 + n % 64;
    assert (n / 64) * 64 + n % 64 == n;
  }

  lemma DecodeThree(c: char, rest: seq<Byte>)
    requires 0x800 <= c as int < 0x10000
    ensures DecodeChar(EncodeChar(c) + rest) == Some((c, 3))
  {
    var n := c as int;
    var bs := EncodeChar(c) + rest;
    var hi, mid, lo := n / 4096, (n / 64) % 64, n % 64;
    assert bs[0] == 0xE0 + hi && bs[1] == 0x80 + mid && bs[2] == 0x80 + lo;
    SplitSix(n / 64);
    assert n == (n / 64) * 64 + lo;
    assert n / 64 == hi * 64 + mid by { Div64Twice(n); }
  }

  lemma DecodeFour(c: char, rest: seq<Byte>)
    requires 0x10000 <= c as int
    ensures DecodeChar(EncodeChar(c) + rest) == Some((c, 4))
  {
    var n := c as int;
    var bs := EncodeChar(c) + rest;
    var b0, b1, b2, b3 := n / 262144, (n / 4096) % 64, (n / 64) % 64, n % 64;
    assert bs[0] == 0xF0 + b0 && bs[1] == 0x80 + b1 && bs[2] == 0x80 + b2 && bs[3] == 0x80 + b3;
    Div64Twice(n);
    Div64Twice(n / 64);
    assert n / 262144 == (n / 4096) / 64 by { Div64Twice(n / 64); assert n / 4096 == (n / 64) / 64; }
    SplitSix(n / 64);
    SplitSix(n / 4096);
    assert n == (n / 64) * 64 + b3;
  }

  lemma SplitSix(m: nat)
    ensures m == (m / 64) * 64 + m % 64
  {
  }

  lemma Div64Twice(n: nat)
    ensures n / 4096 == (n / 64) / 64
  {
  }

  /** Every string Python encodes decodes back to itself. */
  lemma {:induction false} DecodeEncode(s: string)
    ensures Decode(Encode(s)) == Some(s)
  {
    if s != [] {
      var head := EncodeChar(s[0]);
      var bs := Encode(s);
      DecodeEncodedChar(s[0], Encode(s[1..]));
      assert bs[|head|..] == Encode(s[1..]);
      DecodeEncode(s[1..]);
      assert [s[0]] + s[1..] == s;
    }
  }

  /** An ASCII string encodes to its character codes, one byte each. */
  lemma {:induction false} EncodeAscii(s: string)
    requires forall i :: 0 <= i < |s| ==> (s[i] as int) < 0x80
    ensures |Encode(s)| == |s|
    ensures forall i :: 0 <= i < |s| ==> Encode(s)[i] == s[i] as int
  {
    if s != [] {
      EncodeAscii(s[1..]);
    }
  }

  /** The encoding of a concatenation is the concatenation of encodings. */
  lemma {:induction false} EncodeAppend(a: string, b: string)
    ensures Encode(a + b) == Encode(a) + Encode(b)
  {
    if a != [] {
      assert (a + b)[0] == a[0] && (a + b)[1..] == a[1..] + b;
      EncodeAppend(a[1..], b);
    } else {
      assert a + b == b;
    }
  }
}
