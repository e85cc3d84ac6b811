/** The base 64 encoding of section 4 of RFC 4648, with `=` padding, as Node's
    `Buffer.prototype.toString('base64')` produces it, and a decoder used as
    its reference inverse. */
module Base64 {
  import opened Js

  /** The character of "Table 1: The Base 64 Alphabet" for value `v`. */
  function Sextet(v: nat): (c: char)
    requires v < 64
  {
    if v < 26 then ('A' as int + v) as char
    else if v < 52 then ('a' as int + (v - 26)) as char
    else if v < 62 then ('0' as int + (v - 52)) as char
    else if v == 62 then '+'
    else '/'
  }

  /** The value an alphabet character stands for; `None` for every other
      character, the pad `=` included. */
  function SextetValue(c: char): (r: Option<nat>)
    ensures r.Some? ==> r.value < 64 && Sextet(r.value) == c
  {
    if 'A' <= c <= 'Z' then Some(c as int - 'A' as int)
    else if 'a' <= c <= 'z' then Some(c as int - 'a' as int + 26)
    else if '0' <= c <= '9' then Some(c as int - '0' as int + 52)
    else if c == '+' then Some(62)
    else if c == '/' then Some(63)
    else None
  }

  lemma {:induction false} SextetRoundTrip(v: nat)
    requires v < 64
    ensures SextetValue(Sextet(v)) == Some(v)
  {
  }

  /** Three octets become four characters (section 4: the 24-bit group read as
      four 6-bit values, most significant first). */
  function EncodeGroup(b0: byte, b1: byte, b2: byte): string
  {
    [Sextet(b0 / 4), Sextet((b0 % 4) * 16 + b1 / 16), Sextet((b1 % 16) * 4 + b2 / 64), Sextet(b2 % 64)]
  }

  /** Padded encoding of a whole buffer, three octets at a time. */
  function Encode(b: seq<byte>): (r: string)
    ensures |r| == 4 * ((|b| + 2) / 3)
  {
    if |b| == 0 then ""
    else if |b| < 3 then EncodeFinal(b)
    else EncodeGroup(b[0], b[1], b[2]) + Encode(b[3..])
  }

  /** A final group of one or two octets, completed with zero bits, and one
      or two `=` characters. */
  function EncodeFinal(b: seq<byte>): (r: string)
    requires 1 <= |b| <= 2
    ensures |r| == 4
  {
    if |b| == 1 then [Sextet(b[0] / 4), Sextet((b[0] % 4) * 16), '=', '=']
    else [Sextet(b[0] / 4), Sextet((b[0] % 4) * 16 + b[1] / 16), Sextet((b[1] % 16) * 4), '=']
  }

  /** Four characters without padding back to three octets. */
  function DecodeGroup(q: string): (r: Option<seq<byte>>)
    requires |q| == 4
    ensures r.Some? ==> |r.value| == 3
  {
    match (SextetValue(q[0]), SextetValue(q[1]), SextetValue(q[2]), SextetValue(q[3]))
    case (Some(v0), Some(v1), Some(v2), Some(v3)) =>
      Some([v0 * 4 + v1 / 16, (v1 % 16) * 16 + v2 / 4, (v2 % 4) * 64 + v3])
    case _ => None
  }

  /** The last four characters, which may end in one or two `=`. */
  function DecodeLast(q: string): (r: Option<seq<byte>>)
    requires |q| == 4
    ensures r.Some? ==> 1 <= |r.value| <= 3
  {
    if q[2] == '=' && q[3] == '=' then
      match (SextetValue(q[0]), SextetValue(q[1]))
      case (Some(v0), Some(v1)) => Some([v0 * 4 + v1 / 16])
      case _ => None
    else if q[3] == '=' then
      match (SextetValue(q[0]), SextetValue(q[1]), SextetValue(q[2]))
      case (Some(v0), Some(v1), Some(v2)) => Some([v0 * 4 + v1 / 16, (v1 % 16) * 16 + v2 / 4])
      case _ => None
    else DecodeGroup(q)
  }

  /** Decoding of padded base 64 text; `None` for text that is not a multiple
      of four characters or holds a character outside the alphabet. */
  function Decode(s: string): (r: Option<seq<byte>>)
    decreases |s|
  {
    if |s| == 0 then Some([])
    else if |s| < 4 then None
    else if |s| == 4 then DecodeLast(s)
    else Append(DecodeGroup(s[..4]), Decode(s[4..]))
  }

  /** Both decodings, one after the other, when both succeeded. */
  function Append(a: Option<seq<byte>>, b: Option<seq<byte>>): (r: Option<seq<byte>>)
    ensures r.Some? <==> a.Some? && b.Some?
    ensures r.Some? ==> r.value == a.value + b.value
  {
    if a.Some? && b.Some? then Some(a.value + b.value) else None
  }

  lemma {:induction false} GroupRoundTrip(b0: byte, b1: byte, b2: byte)
    ensures DecodeGroup(EncodeGroup(b0, b1, b2)) == Some([b0, b1, b2])
  {
    var v0, v1, v2, v3 := b0 / 4, (b0 % 4) * 16 + b1 / 16, (b1 % 16) * 4 + b2 / 64, b2 % 64;
    SextetRoundTrip(v0);
    SextetRoundTrip(v1);
    SextetRoundTrip(v2);
    SextetRoundTrip(v3);
    assert v0 * 4 + v1 / 16 == b0;
    assert (v1 % 16) * 16 + v2 / 4 == b1;
    assert (v2 % 4) * 64 + v3 == b2;
  }

  /** A final group of one octet: two characters and two pads. */
  lemma {:induction false} LastOneRoundTrip(b0: byte)
    ensures Decode(Encode([b0])) == Some([b0])
  {
    SextetRoundTrip(b0 / 4);
    SextetRoundTrip((b0 % 4) * 16);
  }

  /** A final group of two octets: three characters and one pad. */
  lemma {:induction false} LastTwoRoundTrip(b0: byte, b1: byte)
    ensures Decode(Encode([b0, b1])) == Some([b0, b1])
  {
    var v1 := (b0 % 4) * 16 + b1 / 16;
    var v2 := (b1 % 16) * 4;
    SextetRoundTrip(b0 / 4);
    SextetRoundTrip(v1);
    SextetRoundTrip(v2);
    var e := Encode([b0, b1]);
    assert e == [Sextet(b0 / 4), Sextet(v1), Sextet(v2), '='];
    assert e[2] != '=' by { assert SextetValue(e[2]).Some?; }
    assert (b0 / 4) * 4 + v1 / 16 == b0;
    assert (v1 % 16) * 16 + v2 / 4 == b1;
  }

  /** A final group of three octets: four characters, no pad. */
  lemma {:induction false} LastThreeRoundTrip(b0: byte, b1: byte, b2: byte)
    ensures Decode(Encode([b0, b1, b2])) == Some([b0, b1, b2])
  {
    var e := Encode([b0, b1, b2]);
    assert [b0, b1, b2][3..] == [];
    assert e == EncodeGroup(b0, b1, b2);
    GroupRoundTrip(b0, b1, b2);
    SextetRoundTrip(b2 % 64);
    assert e[3] != '=';
  }

  /** Text longer than one group decodes as its first group followed by
      the rest. */
  lemma {:induction false} DecodeSplit(g: string, rest: string, b: seq<byte>)
    requires |g| == 4 && rest != [] && |b| > 3
    requires DecodeGroup(g) == Some(b[..3]) && Decode(rest) == Some(b[3..])
    ensures Decode(g + rest) == Some(b)
  {
    var s := g + rest;
    assert s[..4] == g;
    assert s[4..] == rest;
    assert b == b[..3] + b[3..];
  }

  /** Decoding the encoding of any buffer gives the buffer back. */
  lemma {:induction false} RoundTrip(b: seq<byte>)
    ensures Decode(Encode(b)) == Some(b)
    decreases |b|
  {
    if |b| > 3 {
      RoundTrip(b[3..]);
      GroupThenRest(b, Encode(b[3..]));
      EncodeCons(b);
    } else {
      ShortRoundTrip(b);
    }
  }

  /** Up to three octets: the empty text, or a single final group. */
  lemma {:induction false} ShortRoundTrip(b: seq<byte>)
    requires |b| <= 3
    ensures Decode(Encode(b)) == Some(b)
  {
    if |b| == 1 {
      LastOneRoundTrip(b[0]);
      assert b == [b[0]];
    } else if |b| == 2 {
      LastTwoRoundTrip(b[0], b[1]);
      assert b == [b[0], b[1]];
    } else if |b| == 3 {
      LastThreeRoundTrip(b[0], b[1], b[2]);
      assert b == [b[0], b[1], b[2]];
    }
  }

  /** A leading group followed by the encoding of the rest decodes group
      by group. */
  lemma {:induction false} GroupThenRest(b: seq<byte>, rest: string)
    requires |b| > 3 && rest != []
    requires Decode(rest) == Some(b[3..])
    ensures Decode(EncodeGroup(b[0], b[1], b[2]) + rest) == Some(b)
  {
    GroupRoundTrip(b[0], b[1], b[2]);
    assert b[..3] == [b[0], b[1], b[2]];
    DecodeSplit(EncodeGroup(b[0], b[1], b[2]), rest, b);
  }

  /** The encoding of more than three octets starts with the first group. */
  lemma {:induction false} EncodeCons(b: seq<byte>)
    requires |b| > 3
    ensures Encode(b) == EncodeGroup(b[0], b[1], b[2]) + Encode(b[3..])
  {
  }

  /** Different buffers have different encodings. */
  lemma {:induction false} EncodeInjective(a: seq<byte>, b: seq<byte>)
    requires Encode(a) == Encode(b)
    ensures a == b
  {
    RoundTrip(a);
    RoundTrip(b);
  }
}
