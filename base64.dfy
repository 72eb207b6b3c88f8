/**
 * Base 64 encoding with the standard alphabet and `=` padding (section 4
 * of RFC 4648), as `base64.b64encode` produces it, and the strict decoder
 * that reads it back.
 */
module Base64 {
  import opened Wrappers
  import opened Utf8
  import PyStrings

  /** A number below 64. */
  type Sextet = n: int | 0 <= n < 64

  /** The character for a sextet (Table 1 of RFC 4648). */
  function CharOf(n: Sextet): (c: char)
    ensures c != '=' && !PyStrings.IsSpace(c)
  {
    if n < 26 then ('A' as int + n) as char
    else if n < 52 then ('a' as int + n - 26) as char
    else if n < 62 then ('0' as int + n - 52) as char
    else if n == 62 then '+'
    else '/'
  }

  /** The sextet a character of the alphabet stands for. */
  function SextetOf(c: char): (r: Option<Sextet>)
    ensures r.Some? ==> CharOf(r.value) == c
  {
    if 'A' <= c <= 'Z' then Some(c as int - 'A' as int)
    else if 'a' <= c <= 'z' then Some(c as int - 'a' as int + 26)
    else if '0' <= c <= '9' then Some(c as int - '0' as int + 52)
    else if c == '+' then Some(62)
    else if c == '/' then Some(63)
    else None
  }

  lemma SextetOfChar(n: Sextet)
    ensures SextetOf(CharOf(n)) == Some(n)
  {
  }

  /** The four characters of three bytes: each character takes the next
      six of their 24 bits, most significant first. */
  function Quantum(b0: Byte, b1: Byte, b2: Byte): (s: string)
    ensures |s| == 4
  {
    [CharOf(b0 / 4), CharOf((b0 % 4) * 16 + b1 / 16), CharOf((b1 % 16) * 4 + b2 / 64), CharOf(b2 % 64)]
  }

  /** Three bytes as one 24-bit number, the first most significant. */
  function Triple(b0: Byte, b1: Byte, b2: Byte): (n: int)
    ensures 0 <= n < 0x100_0000
  {
    b0 as int * 65536 + b1 as int * 256 + b2 as int
  }

  /** `base64.b64encode(bs)`: each three bytes as four characters; a final
      one or two bytes are padded with zero bits and completed with "==" or
      "=". */
  function Encode(bs: seq<Byte>): (s: string)
    ensures |s| == EncodedLength(|bs|)
    decreases |bs|
  {
    if |bs| >= 3 then Quantum(bs[0], bs[1], bs[2]) + Encode(bs[3..])
    else if |bs| == 2 then Quantum(bs[0], bs[1], 0)[..3] + "="
    else if |bs| == 1 then Quantum(bs[0], 0, 0)[..2] + "=="
    else []
  }

  /** Four characters per started group of three bytes. */
  function EncodedLength(n: nat): nat
  {
    if n >= 3 then 4 + EncodedLength(n - 3) else if n == 0 then 0 else 4
  }

  /** The encoding is `4 * ceil(n / 3)` characters long: always whole
      quanta. */
  lemma {:induction false} EncodedLengthQuanta(n: nat)
    ensures EncodedLength(n) == 4 * ((n + 2) / 3) && EncodedLength(n) % 4 == 0
  {
    if n >= 3 {
      EncodedLengthQuanta(n - 3);
      assert (n + 2) / 3 == (n - 3 + 2) / 3 + 1;
    }
  }

  /** The 24-bit value of four alphabet characters. */
  function GroupValue(s: string): (r: Option<int>)
    requires |s| == 4
    ensures r.Some? ==> 0 <= r.value < 0x100_0000
  {
    match (SextetOf(s[0]), SextetOf(s[1]), SextetOf(s[2]), SextetOf(s[3]))
    case (Some(a), Some(b), Some(c), Some(d)) => Some(a as int * 262144 + b as int * 4096 + c as int * 64 + d as int)
    case _ => None
  }

  /** One group of four characters: three bytes, or one or two before the
      padding, which may only end the text; the padding bits must be zero. */
  function DecodeGroup(s: string, last: bool): (r: Option<seq<Byte>>)
    requires |s| == 4
    ensures r.Some? ==> 1 <= |r.value| <= 3
  {
    if last && s[2] == '=' && s[3] == '=' then
      match GroupValue(s[..2] + "AA")
      case Some(n) => if n % 65536 == 0 then Some([n / 65536]) else None
      case None => None
    else if last && s[3] == '=' then
      match GroupValue(s[..3] + "A")
      case Some(n) => if n % 256 == 0 then Some([n / 65536, (n / 256) % 256]) else None
      case None => None
    else
      match GroupValue(s)
      case Some(n) => Some([n / 65536, (n / 256) % 256, n % 256])
      case None => None
  }

  /** The canonical decoder of section 4 of RFC 4648, the partner of
      `Encode`: None for text that is not well-formed padded base 64,
      including a final group whose unused bits are not zero. */
  function Decode(s: string): (r: Option<seq<Byte>>)
    decreases |s|
  {
    if s == [] then Some([])
    else if |s| < 4 then None
    else
      match DecodeGroup(s[..4], |s| == 4)
      case None => None
      case Some(head) =>
        match Decode(s[4..])
        case None => None
        case Some(rest) => Some(head + rest)
  }

  /** The four characters of three bytes carry their 24-bit value. */
  lemma QuantumValue(b0: Byte, b1: Byte, b2: Byte)
    ensures GroupValue(Quantum(b0, b1, b2)) == Some(Triple(b0, b1, b2))
  {
    var a, b, c, d := b0 / 4, (b0 % 4) * 16 + b1 / 16, (b1 % 16) * 4 + b2 / 64, b2 % 64;
    SextetOfChar(a);
    SextetOfChar(b);
    SextetOfChar(c);
    SextetOfChar(d);
    assert b0 == 4 * a + b0 % 4 && b1 == 16 * (b1 / 16) + b1 % 16 && b2 == 64 * (b2 / 64) + d;
  }

  lemma DivMod256(q: int, r: int)
    requires 0 <= r < 256
    ensures (256 * q + r) / 256 == q && (256 * q + r) % 256 == r
  {
  }

  /** The decoder's arithmetic recovers the three bytes. */
  lemma BytesOfValue(b0: Byte, b1: Byte, b2: Byte)
    ensures var n := Triple(b0, b1, b2);
      n / 65536 == b0 && (n / 256) % 256 == b1 && n % 256 == b2
  {
    var n := Triple(b0, b1, b2);
    var hi := b0 as int * 256 + b1 as int;
    assert n == 256 * hi + b2;
    DivMod256(hi, b2);
    DivMod256(b0, b1);
    assert n / 65536 == (n / 256) / 256;
  }

  lemma DecodeFull(b0: Byte, b1: Byte, b2: Byte, last: bool)
    ensures DecodeGroup(Quantum(b0, b1, b2), last) == Some([b0, b1, b2])
  {
    QuantumValue(b0, b1, b2);
    BytesOfValue(b0, b1, b2);
  }

  lemma DecodeTwoBytes(b0: Byte, b1: Byte)
    ensures DecodeGroup(Quantum(b0, b1, 0)[..3] + "=", true) == Some([b0, b1])
  {
    var q := Quantum(b0, b1, 0);
    assert (q[..3] + "=")[..3] + "A" == q;
    QuantumValue(b0, b1, 0);
    BytesOfValue(b0, b1, 0);
  }

  lemma DecodeOneByte(b0: Byte)
    ensures DecodeGroup(Quantum(b0, 0, 0)[..2] + "==", true) == Some([b0])
  {
    var q := Quantum(b0, 0, 0);
    assert (q[..2] + "==")[..2] + "AA" == q;
    QuantumValue(b0, 0, 0);
    BytesOfValue(b0, 0, 0);
  }

  /** Decoding a group followed by more text. */
  lemma DecodeCons(q: string, rest: string, head: seq<Byte>, tail: seq<Byte>)
    requires |q| == 4 && DecodeGroup(q, rest == []) == Some(head) && Decode(rest) == Some(tail)
    ensures Decode(q + rest) == Some(head + tail)
  {
    var s := q + rest;
    assert s[..4] == q && s[4..] == rest;
  }

  /** A group of three bytes decodes back ahead of any text that does. */
  lemma DecodeEncodeGroup(b0: Byte, b1: Byte, b2: Byte, rest: seq<Byte>)
    requires Decode(Encode(rest)) == Some(rest)
    ensures Decode(Quantum(b0, b1, b2) + Encode(rest)) == Some([b0, b1, b2] + rest)
  {
    DecodeFull(b0, b1, b2, Encode(rest) == []);
    DecodeCons(Quantum(b0, b1, b2), Encode(rest), [b0, b1, b2], rest);
  }

  /** A final two bytes decode back from their padded group. */
  lemma DecodeEncodeTwo(b0: Byte, b1: Byte)
    ensures Decode(Quantum(b0, b1, 0)[..3] + "=") == Some([b0, b1])
  {
    var q := Quantum(b0, b1, 0)[..3] + "=";
    DecodeTwoBytes(b0, b1);
    DecodeCons(q, [], [b0, b1], []);
    assert q + [] == q && [b0, b1] + [] == [b0, b1];
  }

  /** A final byte decodes back from its padded group. */
  lemma DecodeEncodeOne(b0: Byte)
    ensures Decode(Quantum(b0, 0, 0)[..2] + "==") == Some([b0])
  {
    var q := Quantum(b0, 0, 0)[..2] + "==";
    DecodeOneByte(b0);
    DecodeCons(q, [], [b0], []);
    assert q + [] == q && [b0] + [] == [b0];
  }

  /** Every byte string `b64encode` writes decodes back to itself. */
  lemma {:induction false} DecodeEncode(bs: seq<Byte>)
    ensures Decode(Encode(bs)) == Some(bs)
    decreases |bs|
  {
    if |bs| >= 3 {
      DecodeEncode(bs[3..]);
      DecodeEncodeGroup(bs[0], bs[1], bs[2], bs[3..]);
      Heads(bs);
    } else if |bs| == 2 {
      DecodeEncodeTwo(bs[0], bs[1]);
      Heads(bs);
    } else if |bs| == 1 {
      DecodeEncodeOne(bs[0]);
      Heads(bs);
    }
  }

  /** A sequence is its first few elements followed by the rest. */
  lemma Heads<T>(s: seq<T>)
    ensures |s| >= 3 ==> [s[0], s[1], s[2]] + s[3..] == s
    ensures |s| == 2 ==> [s[0], s[1]] == s
    ensures |s| == 1 ==> [s[0]] == s
  {
    if |s| >= 3 {
      assert ([s[0], s[1], s[2]] + s[3..])[3..] == s[3..];
    }
  }

  /** Encoded text neither starts nor ends with white space. */
  lemma {:induction false} EncodeUnpadded(bs: seq<Byte>)
    requires bs != []
    ensures !PyStrings.IsSpace(Encode(bs)[0]) && !PyStrings.IsSpace(Encode(bs)[|Encode(bs)| - 1])
    decreases |bs|
  {
    var s := Encode(bs);
    if |bs| >= 3 {
      var q := Quantum(bs[0], bs[1], bs[2]);
      assert s == q + Encode(bs[3..]) && s[0] == q[0];
      if |bs| > 3 {
        EncodeUnpadded(bs[3..]);
        assert s[|s| - 1] == Encode(bs[3..])[|Encode(bs[3..])| - 1];
      } else {
        assert s[|s| - 1] == q[3];
      }
    }
  }
}
