/** The opaque pagination cursor: a timestamp and an event id, as JSON, in URL-safe
    base64 (_encode_cursor and _decode_cursor in app/api/routes.py). */
module Cursor {
  import opened Common
  import opened Text
  import opened Base64Url
  import opened CursorJson
  import opened Calendar
  import opened IsoTimestamp
  import opened Listing

  // ---- UTF-8 -----------------------------------------------------------------

  predicate IsTail(b: Byte) { 128 <= b < 192 }

  function Push(c: CodePoint, rest: Option<Str>): Option<Str> {
    if rest.None? then None else Some([c] + rest.value)
  }

  /** Strict UTF-8: no overlong forms, no surrogates, nothing past U+10FFFF. */
  function DecodeUtf8(b: seq<Byte>): Option<Str>
    decreases |b|
  {
    if b == [] then Some([])
    else if b[0] < 128 then Push(b[0], DecodeUtf8(b[1..]))
    else if 194 <= b[0] < 224 && |b| >= 2 && IsTail(b[1]) then
      Push((b[0] as int - 192) * 64 + (b[1] as int - 128), DecodeUtf8(b[2..]))
    else if 224 <= b[0] < 240 && |b| >= 3 && IsTail(b[1]) && IsTail(b[2]) then
      var c: int := (b[0] as int - 224) * 4096 + (b[1] as int - 128) * 64 + (b[2] as int - 128);
      if c < 0x800 || 0xD800 <= c < 0xE000 then None else Push(c, DecodeUtf8(b[3..]))
    else if 240 <= b[0] < 245 && |b| >= 4 && IsTail(b[1]) && IsTail(b[2]) && IsTail(b[3]) then
      var c: int := (b[0] as int - 240) * 262144 + (b[1] as int - 128) * 4096
        + (b[2] as int - 128) * 64 + (b[3] as int - 128);
      if c < 0x10000 || c >= 0x110000 then None else Push(c, DecodeUtf8(b[4..]))
    else None
  }

  /** UTF-8 of ASCII text. */
  function AsciiBytes(s: Str): (b: seq<Byte>)
    requires IsAscii(s)
    ensures |b| == |s| && forall i :: 0 <= i < |s| ==> b[i] == s[i]
  {
    if s == [] then [] else [s[0]] + AsciiBytes(s[1..])
  }

  lemma {:induction false} AsciiRoundTrip(s: Str)
    requires IsAscii(s)
    ensures DecodeUtf8(AsciiBytes(s)) == Some(s)
  {
    if s != [] {
      AsciiRoundTrip(s[1..]);
      assert AsciiBytes(s)[1..] == AsciiBytes(s[1..]);
      assert s == [s[0]] + s[1..];
    }
  }

  // ---- Encoding and decoding -------------------------------------------------

  /** The cursor naming the timestamp text `ts` and the id `id`. */
  function Wrap(ts: Str, id: Str): Str {
    CursorPrintsAscii(ts, id);
    Encode(AsciiBytes(PrintCursor(ts, id)))
  }

  function EncodeCursor(p: Pos): Str
    requires InRange(p.ts)
  {
    Wrap(IsoFormat(Stamp(p.ts, Some(0))), p.id)
  }

  /** The member texts of a cursor. */
  function Unwrap(cursor: Str): Option<(Str, Str)> {
    var bytes :- Decode(cursor);
    var text :- DecodeUtf8(bytes);
    var members :- ParseObject(text);
    var ts :- Field(members, TS);
    var id :- Field(members, ID);
    Some((ts, id))
  }

  /** The position a cursor names; `None` is the 400 answer to a malformed one. Every
      string has one of the two outcomes, and the position is always a UTC instant. */
  function DecodeCursor(cursor: Str): (r: Option<Pos>)
    ensures r.Some? ==> InRange(r.value.ts)
  {
    var members :- Unwrap(cursor);
    var ts :- Understood(members.0);
    Some(Pos(ts, members.1))
  }

  lemma UnwrapWrap(ts: Str, id: Str)
    ensures Unwrap(Wrap(ts, id)) == Some((Joined(ts), Joined(id)))
    ensures Wrap(ts, id) != []
  {
    var text := PrintCursor(ts, id);
    CursorPrintsAscii(ts, id);
    Base64RoundTrip(AsciiBytes(text));
    EncodeIsAscii(AsciiBytes(text));
    AsciiRoundTrip(text);
    CursorObjectReads(ts, id);
    FieldsFound(Joined(ts), Joined(id));
  }

  lemma FieldsFound(ts: Str, id: Str)
    ensures Field([(TS, ts), (ID, id)], TS) == Some(ts) && Field([(TS, ts), (ID, id)], ID) == Some(id)
  {
    assert [(TS, ts), (ID, id)][..1] == [(TS, ts)];
    assert TS[0] != ID[0];
  }

  // ---- Timestamps have nothing to join ---------------------------------------

  lemma {:induction false} AsciiJoined(s: Str)
    requires IsAscii(s)
    ensures Joined(s) == s
  {
    if |s| >= 2 {
      AsciiJoined(s[1..]);
      assert s == [s[0]] + s[1..];
    }
  }

  lemma {:induction false} DigitsAscii(n: nat, k: nat)
    requires n < Limit(k)
    ensures IsAscii(Digits(n, k))
  {
    if k > 0 { DigitsAscii(n / 10, k - 1); }
  }

  lemma TwoAscii(n: nat)
    requires n < 100
    ensures IsAscii(Two(n))
  {
    Limits();
    DigitsAscii(n, 2);
  }

  lemma DateAscii(d: Date)
    requires ValidDate(d)
    ensures IsAscii(PrintDate(d))
  {
    Limits();
    DigitsAscii(d.year, 4);
    TwoAscii(d.month);
    TwoAscii(d.day);
  }

  lemma ClockAscii(c: Clock)
    requires ValidClock(c)
    ensures IsAscii(PrintClock(c))
  {
    Limits();
    TwoAscii(c.hour);
    TwoAscii(c.minute);
    TwoAscii(c.second);
    if c.micros != 0 { DigitsAscii(c.micros, 6); }
  }

  lemma OffsetAscii(offset: Option<int>)
    requires offset.Some? ==> ValidOffset(offset.value)
    ensures IsAscii(PrintOffset(offset))
  {
    if offset.Some? {
      var m := if offset.value < 0 then -offset.value else offset.value;
      TwoAscii(m / 60);
      TwoAscii(m % 60);
    }
  }

  lemma IsoAscii(s: Stamp)
    requires ValidStamp(s)
    ensures Joined(IsoFormat(s)) == IsoFormat(s)
  {
    var p := PartsOf(s);
    DateAscii(p.date);
    ClockAscii(p.clock);
    OffsetAscii(p.offset);
    AsciiConcat(PrintClock(p.clock), PrintOffset(p.offset));
    AsciiConcat([LETTER_T], PrintClock(p.clock) + PrintOffset(p.offset));
    AsciiConcat(PrintDate(p.date), [LETTER_T] + (PrintClock(p.clock) + PrintOffset(p.offset)));
    AsciiJoined(IsoFormat(s));
  }

  // ---- Main results ----------------------------------------------------------

  /** A cursor written with any clock reading decodes to the instant of that reading,
      or is refused when the instant leaves the representable years. */
  lemma AnyReadingDecodes(s: Stamp, id: Str)
    requires ValidStamp(s)
    ensures DecodeCursor(Wrap(IsoFormat(s), id)) ==
      if ToUtc(s).None? then None else Some(Pos(ToUtc(s).value, Joined(id)))
  {
    UnwrapWrap(IsoFormat(s), id);
    IsoAscii(s);
    TimestampRoundTrip(s);
  }

  /** The cursor round trip: the instant always survives, to the microsecond, and the
      id survives exactly when no high surrogate stands directly before a low one,
      as in no well-formed Unicode string. */
  lemma CursorRoundTrip(p: Pos)
    requires InRange(p.ts)
    ensures DecodeCursor(EncodeCursor(p)) == Some(Pos(p.ts, Joined(p.id)))
    ensures DecodeCursor(EncodeCursor(p)) == Some(p) <==> !HasSplitPair(p.id)
    ensures EncodeCursor(p) != []
  {
    AnyReadingDecodes(Stamp(p.ts, Some(0)), p.id);
    UnwrapWrap(IsoFormat(Stamp(p.ts, Some(0))), p.id);
    JoinedIsSameIff(p.id);
  }

  /** An id that does not survive: two surrogates, which come back as one character. */
  lemma SplitPairDoesNotSurvive(ts: int)
    requires InRange(ts)
    ensures DecodeCursor(EncodeCursor(Pos(ts, [0xD800, 0xDC00]))) == Some(Pos(ts, [0x10000]))
  {
    CursorRoundTrip(Pos(ts, [0xD800, 0xDC00]));
    assert Joined([0xD800, 0xDC00]) == [0x10000];
  }

  /** Cursors naming one instant in different offsets, or without one in UTC, with the
      same id, name the same position, and so select the same page. */
  lemma OffsetsSelectSamePage(t: int, m1: int, m2: int, id: Str)
    requires InRange(t) && ValidOffset(m1) && ValidOffset(m2)
    requires InRange(t + m1 * MICROS_PER_MINUTE) && InRange(t + m2 * MICROS_PER_MINUTE)
    ensures DecodeCursor(Wrap(IsoFormat(ReadingAt(t, m1)), id)) == DecodeCursor(Wrap(IsoFormat(ReadingAt(t, m2)), id))
    ensures DecodeCursor(Wrap(IsoFormat(ReadingAt(t, m1)), id)) == DecodeCursor(Wrap(IsoFormat(Stamp(t, None)), id))
    ensures DecodeCursor(Wrap(IsoFormat(ReadingAt(t, m1)), id)) == Some(Pos(t, Joined(id)))
  {
    ReadingMeansInstant(t, m1);
    ReadingMeansInstant(t, m2);
    AnyReadingDecodes(ReadingAt(t, m1), id);
    AnyReadingDecodes(ReadingAt(t, m2), id);
    AnyReadingDecodes(Stamp(t, None), id);
  }
}
