/** The spellings that the cursor decoder of app/api/routes.py takes beside the one it
    prints: of the bytes, of the encoding, of the object, and of the timestamp. */
module CursorSpellings {
  import opened Common
  import opened Text
  import opened Calendar
  import opened Base64Url
  import opened CursorJson
  import opened IsoTimestamp
  import opened Cursor
  import opened CursorText

  // ---- UTF-8, table 3-6 of the Unicode standard ------------------------------

  predicate IsSurrogate(c: CodePoint) { IsHigh(c) || IsLow(c) }

  predicate NoSurrogates(s: Str) { forall i :: 0 <= i < |s| ==> !IsSurrogate(s[i]) }

  /** The one to four bytes of a code point. */
  function Utf8Char(c: CodePoint): seq<Byte> {
    if c < 0x80 then [c]
    else if c < 0x800 then [0xC0 + c / 0x40, 0x80 + c % 0x40]
    else if c < 0x10000 then [0xE0 + c / 0x1000, 0x80 + c / 0x40 % 0x40, 0x80 + c % 0x40]
    else [0xF0 + c / 0x40000, 0x80 + c / 0x1000 % 0x40, 0x80 + c / 0x40 % 0x40, 0x80 + c % 0x40]
  }

  function Utf8(s: Str): seq<Byte> {
    if s == [] then [] else Utf8Char(s[0]) + Utf8(s[1..])
  }

  /** The six-bit groups of a code point. */
  lemma Groups(c: nat)
    ensures c == c / 0x40 * 0x40 + c % 0x40
    ensures c / 0x40 == c / 0x1000 * 0x40 + c / 0x40 % 0x40
    ensures c / 0x1000 == c / 0x40000 * 0x40 + c / 0x1000 % 0x40
  {
    assert c / 0x40 / 0x40 == c / 0x1000 && c / 0x1000 / 0x40 == c / 0x40000;
  }

  lemma TwoDecode(a: Byte, b: Byte, rest: seq<Byte>)
    requires 194 <= a < 224 && IsTail(b)
    ensures DecodeUtf8([a, b] + rest) == Push((a as int - 192) * 64 + (b as int - 128), DecodeUtf8(rest))
  {
    assert ([a, b] + rest)[2..] == rest;
  }

  lemma ThreeDecode(a: Byte, b: Byte, c: Byte, rest: seq<Byte>)
    requires 224 <= a < 240 && IsTail(b) && IsTail(c)
    ensures var v: int := (a as int - 224) * 4096 + (b as int - 128) * 64 + (c as int - 128);
      DecodeUtf8([a, b, c] + rest) ==
        if v < 0x800 || 0xD800 <= v < 0xE000 then None else Push(v, DecodeUtf8(rest))
  {
    assert ([a, b, c] + rest)[3..] == rest;
  }

  lemma FourDecode(a: Byte, b: Byte, c: Byte, d: Byte, rest: seq<Byte>)
    requires 240 <= a < 245 && IsTail(b) && IsTail(c) && IsTail(d)
    ensures var v: int := (a as int - 240) * 262144 + (b as int - 128) * 4096
        + (c as int - 128) * 64 + (d as int - 128);
      DecodeUtf8([a, b, c, d] + rest) ==
        if v < 0x10000 || v >= 0x110000 then None else Push(v, DecodeUtf8(rest))
  {
    assert ([a, b, c, d] + rest)[4..] == rest;
  }

  lemma LongCharDecodes(c: CodePoint, rest: seq<Byte>)
    requires 0x800 <= c && !IsSurrogate(c)
    ensures DecodeUtf8(Utf8Char(c) + rest) == Push(c, DecodeUtf8(rest))
  {
    var b1, b2, b3, high := c % 0x40, c / 0x40 % 0x40, c / 0x1000 % 0x40, c / 0x40000;
    Groups(c);
    if c < 0x10000 {
      ThreeDecode(0xE0 + c / 0x1000, 0x80 + b2, 0x80 + b1, rest);
    } else {
      FourDecode(0xF0 + high, 0x80 + b3, 0x80 + b2, 0x80 + b1, rest);
    }
  }

  lemma CharDecodes(c: CodePoint, rest: seq<Byte>)
    requires !IsSurrogate(c)
    ensures DecodeUtf8(Utf8Char(c) + rest) == Push(c, DecodeUtf8(rest))
  {
    if c < 0x80 {
      assert ([c] + rest)[1..] == rest;
    } else if c < 0x800 {
      Groups(c);
      TwoDecode(0xC0 + c / 0x40, 0x80 + c % 0x40, rest);
    } else {
      LongCharDecodes(c, rest);
    }
  }

  /** Well-formed text survives, */
  lemma {:induction false} Utf8RoundTrip(s: Str)
    requires NoSurrogates(s)
    ensures DecodeUtf8(Utf8(s)) == Some(s)
  {
    if s != [] {
      Utf8RoundTrip(s[1..]);
      CharDecodes(s[0], Utf8(s[1..]));
      assert s == [s[0]] + s[1..];
    }
  }

  /** A number put together from six-bit groups comes apart into them. */
  lemma Ungroup(high: nat, low: nat)
    requires low < 0x40
    ensures (high * 0x40 + low) / 0x40 == high && (high * 0x40 + low) % 0x40 == low
  {
  }

  lemma TwoAreChar(a: Byte, b: Byte)
    requires 194 <= a < 224 && IsTail(b)
    ensures [a, b] == Utf8Char((a as int - 192) * 64 + (b as int - 128))
  {
    Ungroup(a as int - 192, b as int - 128);
  }

  lemma ThreeAreChar(a: Byte, b: Byte, c: Byte)
    requires 224 <= a < 240 && IsTail(b) && IsTail(c)
    requires (a as int - 224) * 4096 + (b as int - 128) * 64 + (c as int - 128) >= 0x800
    ensures [a, b, c] == Utf8Char((a as int - 224) * 4096 + (b as int - 128) * 64 + (c as int - 128))
  {
    var high := (a as int - 224) * 64 + (b as int - 128);
    Ungroup(high, c as int - 128);
    Ungroup(a as int - 224, b as int - 128);
    Groups(high * 64 + (c as int - 128));
  }

  lemma FourAreChar(a: Byte, b: Byte, c: Byte, d: Byte)
    requires 240 <= a < 245 && IsTail(b) && IsTail(c) && IsTail(d)
    requires var v := (a as int - 240) * 262144 + (b as int - 128) * 4096 + (c as int - 128) * 64 + (d as int - 128);
      0x10000 <= v < 0x110000
    ensures [a, b, c, d] ==
      Utf8Char((a as int - 240) * 262144 + (b as int - 128) * 4096 + (c as int - 128) * 64 + (d as int - 128))
  {
    var top := (a as int - 240) * 64 + (b as int - 128);
    var high := top * 64 + (c as int - 128);
    Ungroup(high, d as int - 128);
    Ungroup(top, c as int - 128);
    Ungroup(a as int - 240, b as int - 128);
    Groups(high * 64 + (d as int - 128));
  }

  /** Decoded bytes begin with the encoding of the first character. */
  lemma FirstDecodes(b: seq<Byte>) returns (c: CodePoint, n: nat)
    requires b != [] && DecodeUtf8(b).Some?
    ensures 1 <= n <= |b| && !IsSurrogate(c) && b[..n] == Utf8Char(c) && DecodeUtf8(b) == Push(c, DecodeUtf8(b[n..]))
  {
    if b[0] < 128 {
      c, n := b[0], 1;
    } else if b[0] < 224 {
      n := 2;
      TwoAreChar(b[0], b[1]);
      c := (b[0] as int - 192) * 64 + (b[1] as int - 128);
      assert b[..2] == [b[0], b[1]];
    } else if b[0] < 240 {
      n := 3;
      ThreeAreChar(b[0], b[1], b[2]);
      c := (b[0] as int - 224) * 4096 + (b[1] as int - 128) * 64 + (b[2] as int - 128);
      assert b[..3] == [b[0], b[1], b[2]];
    } else {
      n := 4;
      FourAreChar(b[0], b[1], b[2], b[3]);
      c := (b[0] as int - 240) * 262144 + (b[1] as int - 128) * 4096 + (b[2] as int - 128) * 64 + (b[3] as int - 128);
      assert b[..4] == [b[0], b[1], b[2], b[3]];
    }
  }

  /** and bytes are read only if they are the encoding of what is read. */
  lemma {:induction false} Utf8IsStrict(b: seq<Byte>)
    requires DecodeUtf8(b).Some?
    ensures NoSurrogates(DecodeUtf8(b).value) && Utf8(DecodeUtf8(b).value) == b
    decreases |b|
  {
    if b != [] {
      var c, n := FirstDecodes(b);
      Utf8IsStrict(b[n..]);
      var s := DecodeUtf8(b).value;
      assert s[1..] == DecodeUtf8(b[n..]).value;
      assert b == b[..n] + b[n..];
    }
  }

  // ---- Base64 ----------------------------------------------------------------

  /** Beside its own alphabet the decoder reads plus and slash, and nothing else. */
  lemma AlphabetRead(c: CodePoint)
    ensures ValueOf(43) == ValueOf(45) == Some(62) && ValueOf(47) == ValueOf(95) == Some(63)
    ensures ValueOf(c).Some? <==> c in {43, 47} || exists v: Sextet :: Symbol(v) == c
  {
    if ValueOf(c).Some? { assert c in {43, 47} || Symbol(ValueOf(c).value) == c; }
  }

  predicate IsJunk(c: CodePoint) { c != PAD && ValueOf(c).None? }

  /** A character that is neither in the alphabet nor padding changes nothing. */
  lemma {:induction false} JunkIsSkipped(s: Str, c: CodePoint, t: Str, p: Partial)
    requires IsJunk(c)
    ensures DecodeFrom(s + [c] + t, p) == DecodeFrom(s + t, p)
  {
    if s == [] {
      assert (s + [c] + t)[1..] == t && s + t == t;
    } else {
      var u, v := s + [c] + t, s + t;
      assert u[1..] == s[1..] + [c] + t && v[1..] == s[1..] + t && u[0] == v[0] == s[0];
      JunkIsSkipped(s[1..], c, t, p);
      JunkIsSkipped(s[1..], c, t, p.(pads := p.pads + 1));
      if ValueOf(s[0]).Some? { JunkIsSkipped(s[1..], c, t, Next(p, ValueOf(s[0]).value)); }
    }
  }

  lemma JunkIsAscii(s: Str, c: CodePoint, t: Str)
    requires c < 128
    ensures (exists i :: 0 <= i < |s + [c] + t| && (s + [c] + t)[i] >= 128)
            <==> exists i :: 0 <= i < |s + t| && (s + t)[i] >= 128
  {
    var u, v := s + [c] + t, s + t;
    if i :| 0 <= i < |u| && u[i] >= 128 {
      assert v[if i < |s| then i else i - 1] >= 128;
    }
    if i :| 0 <= i < |v| && v[i] >= 128 {
      assert u[if i < |s| then i else i + 1] >= 128;
    }
  }

  lemma JunkDecodes(s: Str, c: CodePoint, t: Str)
    requires IsJunk(c) && c < 128
    ensures Decode(s + [c] + t) == Decode(s + t)
  {
    JunkIsAscii(s, c, t);
    JunkIsSkipped(s, c, t, START);
  }

  lemma SameBytesSameCursor(u: Str, v: Str)
    requires Decode(u) == Decode(v)
    ensures DecodeCursor(u) == DecodeCursor(v)
  {
    assert Unwrap(u) == Unwrap(v);
  }

  /** A line break, say, anywhere in a cursor. */
  lemma JunkInCursor(s: Str, c: CodePoint, t: Str)
    requires IsJunk(c) && c < 128
    ensures DecodeCursor(s + [c] + t) == DecodeCursor(s + t)
  {
    JunkDecodes(s, c, t);
    SameBytesSameCursor(s + [c] + t, s + t);
  }

  // ---- Strings and members ---------------------------------------------------

  /** Characters that section 7 of RFC 8259 lets stand for themselves. */
  predicate Unescaped(s: Str) { forall i :: 0 <= i < |s| ==> s[i] >= 32 && s[i] != 34 && s[i] != 92 }

  lemma {:induction false} UnescapedReads(s: Str, rest: Str)
    requires Unescaped(s)
    ensures ReadString(s + [34] + rest) == Read(s, rest)
  {
    var t := s + [34] + rest;
    if s == [] {
      assert t[1..] == rest;
    } else {
      UnescapedReads(s[1..], rest);
      assert t[1..] == s[1..] + [34] + rest;
      assert s == [s[0]] + s[1..];
    }
  }

  lemma ControlIsRefused(c: CodePoint, rest: Str)
    ensures c < 32 ==> ReadString([c] + rest).Bad?
    ensures ReadString([]).Bad? && ReadString([92]).Bad?
  {
  }

  /** The two-character escapes, slash included. */
  lemma EscapesRead(rest: Str)
    ensures ReadString([92, 47] + rest) == Cons(47, ReadString(rest))
    ensures ReadString([92, 110] + rest) == Cons(10, ReadString(rest))
  {
    assert ([92, 47] + rest)[2..] == rest && ([92, 110] + rest)[2..] == rest;
  }

  /** White space is what section 2 of RFC 8259 says, and all of it is skipped. */
  lemma {:induction false} SpaceIsSkipped(t: Str) returns (n: nat)
    ensures n <= |t| && SkipSpace(t) == t[n..]
    ensures forall i :: 0 <= i < n ==> t[i] in {32, 9, 10, 13}
    ensures n < |t| ==> t[n] !in {32, 9, 10, 13}
  {
    n := 0;
    if t != [] && t[0] in {32, 9, 10, 13} {
      var m := SpaceIsSkipped(t[1..]);
      n := m + 1;
      assert t[1..][m..] == t[n..];
      forall i | 0 <= i < n ensures t[i] in {32, 9, 10, 13} { if i > 0 { assert t[1..][i - 1] == t[i]; } }
    }
  }

  ghost predicate IsLastMember(list: seq<(Str, Str)>, i: int, name: Str, value: Str) {
    0 <= i < |list| && list[i] == (name, value) && forall j :: i < j < |list| ==> list[j].0 != name
  }

  /** The last member of a name counts. */
  lemma {:induction false} LastMemberCounts(list: seq<(Str, Str)>, name: Str)
    ensures Field(list, name).None? <==> forall i :: 0 <= i < |list| ==> list[i].0 != name
    ensures Field(list, name).Some? ==> exists i :: IsLastMember(list, i, name, Field(list, name).value)
  {
    if list != [] {
      var n := |list| - 1;
      LastMemberCounts(list[..n], name);
      if list[n].0 == name {
        assert IsLastMember(list, n, name, Field(list, name).value);
      } else if Field(list, name).Some? {
        var i :| IsLastMember(list[..n], i, name, Field(list, name).value);
        assert IsLastMember(list, i, name, Field(list, name).value);
      }
    }
  }

  // ---- Timestamps ------------------------------------------------------------

  lemma SpellingReads(d: Date, c: Clock, separator: CodePoint, tail: Str)
    requires ValidDate(d) && ValidClock(c) && Expect(tail, DOT).None? && ReadOffset(tail).Some?
    ensures var parts := Parts(d, c, ReadOffset(tail).value);
      ReadParts(PrintDate(d) + ([separator] + (PrintClock(c) + tail))) == Some(parts)
  {
    var clock := PrintClock(c) + tail;
    DateReads(d, [separator] + clock);
    assert ([separator] + clock)[1..] == clock;
    ClockReads(c, tail);
  }

  lemma TailsRead()
    ensures Expect([90], DOT).None? && ReadOffset([90]) == Some(Some(0))
    ensures Expect([43, 48, 48, 58, 48, 48], DOT).None? && ReadOffset([43, 48, 48, 58, 48, 48]) == Some(Some(0))
    ensures Expect([], DOT).None? && ReadOffset([]) == Some(None)
  {
    TwoText(0);
    OffsetReads(Some(0));
    assert PrintOffset(Some(0)) == [43, 48, 48, 58, 48, 48];
  }

  lemma AreUnderstood(s: Str, p: Parts)
    requires ReadParts(s) == Some(p)
    ensures ValidParts(p) && Understood(s) == ToUtc(Assemble(p))
  {
  }

  lemma UtcParts(t: int, offset: Option<int>)
    requires InRange(t) && offset in {None, Some(0)}
    ensures var p := PartsOf(Stamp(t, None));
      ToUtc(Assemble(Parts(p.date, p.clock, offset))) == Some(t)
  {
    PartsMakeWhole(Stamp(t, offset));
  }

  lemma SpellingUnderstood(t: int, separator: CodePoint, tail: Str)
    requires InRange(t) && Expect(tail, DOT).None? && ReadOffset(tail) in {Some(None), Some(Some(0))}
    ensures var p := PartsOf(Stamp(t, None));
      Understood(PrintDate(p.date) + ([separator] + (PrintClock(p.clock) + tail))) == Some(t)
  {
    var p := PartsOf(Stamp(t, None));
    SpellingReads(p.date, p.clock, separator, tail);
    AreUnderstood(PrintDate(p.date) + ([separator] + (PrintClock(p.clock) + tail)),
                  Parts(p.date, p.clock, ReadOffset(tail).value));
    UtcParts(t, ReadOffset(tail).value);
  }

  /** Any character may stand between date and time, and Z, +00:00, or nothing after them. */
  lemma UtcSpellings(t: int, separator: CodePoint, tail: Str)
    requires InRange(t) && tail in {[90], [43, 48, 48, 58, 48, 48], []}
    ensures var p := PartsOf(Stamp(t, None));
      Understood(PrintDate(p.date) + ([separator] + (PrintClock(p.clock) + tail))) == Some(t)
  {
    TailsRead();
    SpellingUnderstood(t, separator, tail);
  }
}
