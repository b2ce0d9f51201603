/** The URL-safe base64 of section 5 of RFC 4648, encoded with padding and decoded
    leniently: characters outside the alphabet are skipped. */
module Base64Url {
  import opened Common
  import opened Text

  type Byte = b: nat | b < 256

  type Sextet = v: nat | v < 64

  const PAD := '=' as int

  /** Section 5 of RFC 4648, table 2. */
  function Symbol(v: Sextet): CodePoint {
    if v < 26 then 'A' as int + v
    else if v < 52 then 'a' as int + (v - 26)
    else if v < 62 then '0' as int + (v - 52)
    else if v == 62 then '-' as int
    else '_' as int
  }

  /** The value of a character, also in the alphabet of section 4; `None` outside both. */
  function ValueOf(c: CodePoint): Option<Sextet> {
    if 'A' as int <= c <= 'Z' as int then Some(c - 'A' as int)
    else if 'a' as int <= c <= 'z' as int then Some(c - 'a' as int + 26)
    else if '0' as int <= c <= '9' as int then Some(c - '0' as int + 52)
    else if c == '-' as int || c == '+' as int then Some(62)
    else if c == '_' as int || c == '/' as int then Some(63)
    else None
  }

  function OneByte(a: Byte): Str { [Symbol(a / 4), Symbol(a % 4 * 16), PAD, PAD] }

  function TwoBytes(a: Byte, b: Byte): Str {
    [Symbol(a / 4), Symbol(a % 4 * 16 + b / 16), Symbol(b % 16 * 4), PAD]
  }

  function ThreeBytes(a: Byte, b: Byte, c: Byte): Str {
    [Symbol(a / 4), Symbol(a % 4 * 16 + b / 16), Symbol(b % 16 * 4 + c / 64), Symbol(c % 64)]
  }

  function Encode(bytes: seq<Byte>): Str {
    if bytes == [] then []
    else if |bytes| == 1 then OneByte(bytes[0])
    else if |bytes| == 2 then TwoBytes(bytes[0], bytes[1])
    else ThreeBytes(bytes[0], bytes[1], bytes[2]) + Encode(bytes[3..])
  }

  /** The decoder's state: position in the group of four, the bits carried over, and
      the padding seen since the last character. */
  datatype Partial = Partial(quad: nat, carry: nat, pads: nat)

  const START := Partial(0, 0, 0)

  /** The byte completed by a sextet, if any. */
  function Output(p: Partial, v: Sextet): seq<Byte> {
    if p.quad == 0 then []
    else if p.quad == 1 then [(p.carry * 4 + v / 16) % 256]
    else if p.quad == 2 then [(p.carry * 16 + v / 4) % 256]
    else [(p.carry * 64 + v) % 256]
  }

  function Next(p: Partial, v: Sextet): Partial {
    if p.quad == 0 then Partial(1, v, 0)
    else if p.quad == 1 then Partial(2, v % 16, 0)
    else if p.quad == 2 then Partial(3, v % 4, 0)
    else START
  }

  function Prepend(bytes: seq<Byte>, rest: Option<seq<Byte>>): Option<seq<Byte>> {
    if rest.None? then None else Some(bytes + rest.value)
  }

  /** Reads on from `p`; a complete padding ends the text, whatever follows it. */
  function DecodeFrom(s: Str, p: Partial): Option<seq<Byte>> {
    if s == [] then if p.quad == 0 then Some([]) else None
    else if s[0] == PAD then
      if p.quad < 2 then DecodeFrom(s[1..], p)
      else if p.quad + p.pads + 1 >= 4 then Some([])
      else DecodeFrom(s[1..], p.(pads := p.pads + 1))
    else match ValueOf(s[0])
      case None => DecodeFrom(s[1..], p)
      case Some(v) => Prepend(Output(p, v), DecodeFrom(s[1..], Next(p, v)))
  }

  /** `None` for non-ASCII text and for text whose padding is wrong. */
  function Decode(s: Str): Option<seq<Byte>> {
    if exists i :: 0 <= i < |s| && s[i] >= 128 then None else DecodeFrom(s, START)
  }

  lemma ValueOfSymbol(v: Sextet)
    ensures ValueOf(Symbol(v)) == Some(v) && Symbol(v) != PAD && Symbol(v) < 128
  {
  }

  lemma SymbolDecodes(v: Sextet, rest: Str, p: Partial)
    ensures DecodeFrom([Symbol(v)] + rest, p) == Prepend(Output(p, v), DecodeFrom(rest, Next(p, v)))
  {
    ValueOfSymbol(v);
    assert ([Symbol(v)] + rest)[1..] == rest;
  }

  /** What two, three, and four symbols put out. */
  function Output2(v0: Sextet, v1: Sextet): Byte { (v0 * 4 + v1 / 16) % 256 }

  function Output3(v1: Sextet, v2: Sextet): Byte { (v1 % 16 * 16 + v2 / 4) % 256 }

  function Output4(v2: Sextet, v3: Sextet): Byte { (v2 % 4 * 64 + v3) % 256 }

  lemma TwoSymbolsDecode(v0: Sextet, v1: Sextet, rest: Str)
    ensures DecodeFrom([Symbol(v0), Symbol(v1)] + rest, START) ==
      Prepend([Output2(v0, v1)], DecodeFrom(rest, Partial(2, v1 % 16, 0)))
  {
    SymbolDecodes(v0, [Symbol(v1)] + rest, START);
    SymbolDecodes(v1, rest, Partial(1, v0, 0));
    assert [Symbol(v0), Symbol(v1)] + rest == [Symbol(v0)] + ([Symbol(v1)] + rest);
    assert forall x: seq<Byte> :: [] + x == x;
  }

  lemma ThirdSymbolDecodes(v1: Sextet, v2: Sextet, rest: Str)
    ensures DecodeFrom([Symbol(v2)] + rest, Partial(2, v1 % 16, 0)) ==
      Prepend([Output3(v1, v2)], DecodeFrom(rest, Partial(3, v2 % 4, 0)))
  {
    SymbolDecodes(v2, rest, Partial(2, v1 % 16, 0));
  }

  lemma FourthSymbolDecodes(v2: Sextet, v3: Sextet, rest: Str)
    ensures DecodeFrom([Symbol(v3)] + rest, Partial(3, v2 % 4, 0)) ==
      Prepend([Output4(v2, v3)], DecodeFrom(rest, START))
  {
    SymbolDecodes(v3, rest, Partial(3, v2 % 4, 0));
  }

  /** The bits of three bytes, cut into four sextets and put together again. */
  lemma BitsRegroup(a: Byte, b: Byte, c: Byte)
    ensures a % 4 * 16 + b / 16 < 64 && b % 16 * 4 + c / 64 < 64
    ensures Output2(a / 4, a % 4 * 16 + b / 16) == a
    ensures Output3(a % 4 * 16 + b / 16, b % 16 * 4 + c / 64) == b
    ensures Output4(b % 16 * 4 + c / 64, c % 64) == c
  {
    assert (a % 4 * 16 + b / 16) / 16 == a % 4 && (a % 4 * 16 + b / 16) % 16 == b / 16;
    assert (b % 16 * 4 + c / 64) / 4 == b % 16 && (b % 16 * 4 + c / 64) % 4 == c / 64;
  }

  /** A whole group of four symbols decodes to the three bytes it stands for. */
  lemma GroupDecodes(v0: Sextet, v1: Sextet, v2: Sextet, v3: Sextet, rest: Str)
    requires DecodeFrom(rest, START).Some?
    ensures DecodeFrom([Symbol(v0), Symbol(v1), Symbol(v2), Symbol(v3)] + rest, START) ==
      Some([Output2(v0, v1), Output3(v1, v2), Output4(v2, v3)] + DecodeFrom(rest, START).value)
  {
    var r3 := [Symbol(v3)] + rest;
    var r2 := [Symbol(v2)] + r3;
    assert [Symbol(v0), Symbol(v1), Symbol(v2), Symbol(v3)] + rest == [Symbol(v0), Symbol(v1)] + r2;
    TwoSymbolsDecode(v0, v1, r2);
    ThirdSymbolDecodes(v1, v2, r3);
    FourthSymbolDecodes(v2, v3, rest);
    Concat3(Output2(v0, v1), Output3(v1, v2), Output4(v2, v3), DecodeFrom(rest, START).value);
  }

  lemma Concat3(a: Byte, b: Byte, c: Byte, tail: seq<Byte>)
    ensures [a] + ([b] + ([c] + tail)) == [a, b, c] + tail
  {
  }

  /** A last group: one byte and two pads, or two bytes and one pad. */
  lemma LastGroupDecodes(v0: Sextet, v1: Sextet, v2: Sextet)
    ensures DecodeFrom([Symbol(v0), Symbol(v1), PAD, PAD], START) == Some([Output2(v0, v1)])
    ensures DecodeFrom([Symbol(v0), Symbol(v1), Symbol(v2), PAD], START) == Some([Output2(v0, v1), Output3(v1, v2)])
  {
    assert [PAD, PAD][1..] == [PAD];
    assert [Symbol(v0), Symbol(v1), PAD, PAD] == [Symbol(v0), Symbol(v1)] + [PAD, PAD];
    TwoSymbolsDecode(v0, v1, [PAD, PAD]);
    assert [Symbol(v0), Symbol(v1), Symbol(v2), PAD] == [Symbol(v0), Symbol(v1)] + ([Symbol(v2)] + [PAD]);
    TwoSymbolsDecode(v0, v1, [Symbol(v2)] + [PAD]);
    ThirdSymbolDecodes(v1, v2, [PAD]);
    Concat2(Output2(v0, v1), Output3(v1, v2));
  }

  lemma Concat2(a: Byte, b: Byte)
    ensures [a] + [] == [a] && [a] + ([b] + []) == [a, b]
  {
  }

  lemma ThreeBytesDecode(a: Byte, b: Byte, c: Byte, rest: Str)
    requires DecodeFrom(rest, START).Some?
    ensures DecodeFrom(ThreeBytes(a, b, c) + rest, START) == Some([a, b, c] + DecodeFrom(rest, START).value)
  {
    BitsRegroup(a, b, c);
    GroupDecodes(a / 4, a % 4 * 16 + b / 16, b % 16 * 4 + c / 64, c % 64, rest);
  }

  lemma LastBytesDecode(a: Byte, b: Byte)
    ensures DecodeFrom(OneByte(a), START) == Some([a])
    ensures DecodeFrom(TwoBytes(a, b), START) == Some([a, b])
  {
    BitsRegroup(a, 0, 0);
    LastGroupDecodes(a / 4, a % 4 * 16, 0);
    BitsRegroup(a, b, 0);
    LastGroupDecodes(a / 4, a % 4 * 16 + b / 16, b % 16 * 4);
  }

  lemma {:induction false} DecodeFromEncode(bytes: seq<Byte>)
    ensures DecodeFrom(Encode(bytes), START) == Some(bytes)
  {
    if |bytes| == 0 {
    } else if |bytes| == 1 {
      LastBytesDecode(bytes[0], 0);
      assert bytes == [bytes[0]];
    } else if |bytes| == 2 {
      LastBytesDecode(bytes[0], bytes[1]);
      assert bytes == [bytes[0], bytes[1]];
    } else {
      DecodeFromEncode(bytes[3..]);
      ThreeBytesDecode(bytes[0], bytes[1], bytes[2], Encode(bytes[3..]));
      assert bytes == [bytes[0], bytes[1], bytes[2]] + bytes[3..];
    }
  }

  lemma {:induction false} EncodeIsAscii(bytes: seq<Byte>)
    ensures forall i :: 0 <= i < |Encode(bytes)| ==> Encode(bytes)[i] < 128
    ensures bytes != [] ==> Encode(bytes) != []
  {
    if |bytes| >= 3 { EncodeIsAscii(bytes[3..]); }
  }

  /** Every byte sequence survives the encoding, in each of the padding cases. */
  lemma Base64RoundTrip(bytes: seq<Byte>)
    ensures Decode(Encode(bytes)) == Some(bytes)
  {
    EncodeIsAscii(bytes);
    DecodeFromEncode(bytes);
  }
}
