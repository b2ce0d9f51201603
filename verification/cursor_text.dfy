/** What a cursor looks like: the text that `_encode_cursor` in app/api/routes.py prints,
    character by character. */
module CursorText {
  import opened Common
  import opened Text
  import opened Calendar
  import opened Base64Url
  import opened CursorJson
  import opened IsoTimestamp
  import opened Listing
  import opened Cursor

  // ---- Numbers and dates -----------------------------------------------------

  lemma TwoText(n: nat)
    requires n < 100
    ensures Two(n) == [48 + n / 10, 48 + n % 10]
  {
    Limits();
    assert Digits(n, 2) == Digits(n / 10, 1) + ['0' as int + n % 10];
    assert Digits(n / 10, 1) == Digits(n / 10 / 10, 0) + ['0' as int + n / 10 % 10];
  }

  lemma FourText(n: nat)
    requires n < 10000
    ensures n < Limit(4) && Digits(n, 4) == [48 + n / 1000, 48 + n / 100 % 10, 48 + n / 10 % 10, 48 + n % 10]
  {
    Limits();
    TwoText(n / 100);
    assert Digits(n, 4) == Digits(n / 10, 3) + [48 + n % 10];
    assert Digits(n / 10, 3) == Digits(n / 100, 2) + [48 + n / 10 % 10] by { assert n / 10 / 10 == n / 100; }
    assert n / 100 / 10 == n / 1000;
  }

  lemma SixText(n: nat)
    requires n < 1000000
    ensures n < Limit(6)
    ensures Digits(n, 6) == [48 + n / 100000, 48 + n / 10000 % 10, 48 + n / 1000 % 10,
                             48 + n / 100 % 10, 48 + n / 10 % 10, 48 + n % 10]
  {
    Limits();
    FourText(n / 100);
    assert Digits(n, 6) == Digits(n / 10, 5) + [48 + n % 10];
    assert Digits(n / 10, 5) == Digits(n / 100, 4) + [48 + n / 10 % 10] by { assert n / 10 / 10 == n / 100; }
    assert n / 100 / 1000 == n / 100000 && n / 100 / 100 == n / 10000 && n / 100 / 10 == n / 1000;
  }

  /** Known dates fix where the calendar starts and which years leap. */
  lemma KnownDates()
    ensures Ordinal(Date(1, 1, 1)) == 0 && Ordinal(Date(1970, 1, 1)) == 719162
    ensures ValidDate(Date(2000, 2, 29)) && ValidDate(Date(2024, 2, 29)) && !ValidDate(Date(1900, 2, 29))
    ensures !ValidDate(Date(2023, 2, 29)) && ValidDate(Date(9999, 12, 31)) && Ordinal(Date(9999, 12, 31)) == DAYS - 1
  {
  }

  /** YYYY-MM-DD */
  lemma DateText(d: Date)
    requires ValidDate(d)
    ensures PrintDate(d) ==
      [48 + d.year / 1000, 48 + d.year / 100 % 10, 48 + d.year / 10 % 10, 48 + d.year % 10, 45,
       48 + d.month / 10, 48 + d.month % 10, 45, 48 + d.day / 10, 48 + d.day % 10]
  {
    FourText(d.year);
    TwoText(d.month);
    TwoText(d.day);
  }

  /** HH:MM:SS */
  lemma ClockText(c: Clock)
    requires ValidClock(c)
    ensures PrintClock(c) ==
      [48 + c.hour / 10, 48 + c.hour % 10, 58, 48 + c.minute / 10, 48 + c.minute % 10, 58,
       48 + c.second / 10, 48 + c.second % 10] + PrintFraction(c.micros)
  {
    TwoText(c.hour);
    TwoText(c.minute);
    TwoText(c.second);
  }

  /** Nothing for zero microseconds, else .ffffff */
  lemma FractionText(n: nat)
    requires n < 1000000
    ensures n == 0 ==> PrintFraction(n) == []
    ensures n > 0 ==>
      PrintFraction(n) == [46, 48 + n / 100000, 48 + n / 10000 % 10, 48 + n / 1000 % 10,
                           48 + n / 100 % 10, 48 + n / 10 % 10, 48 + n % 10]
  {
    SixText(n);
  }

  /** A UTC time is its date, a T, its time of day, and +00:00. */
  lemma UtcText(t: int)
    requires InRange(t)
    ensures var p := PartsOf(Stamp(t, Some(0)));
      IsoFormat(Stamp(t, Some(0))) == PrintDate(p.date) + [84] + PrintClock(p.clock) + [43, 48, 48, 58, 48, 48]
  {
    TwoText(0);
    assert PrintOffset(Some(0)) == [43, 48, 48, 58, 48, 48];
  }

  lemma PlainConcat(a: Str, b: Str)
    requires Plain(a) && Plain(b)
    ensures Plain(a + b)
  {
  }

  lemma DateIsPlain(d: Date)
    requires ValidDate(d)
    ensures Plain(PrintDate(d))
  {
    DateText(d);
  }

  lemma ClockIsPlain(c: Clock)
    requires ValidClock(c)
    ensures Plain(PrintClock(c))
  {
    ClockText(c);
    FractionText(c.micros);
  }

  lemma UtcTextIsPlain(t: int)
    requires InRange(t)
    ensures Plain(IsoFormat(Stamp(t, Some(0))))
  {
    var p := PartsOf(Stamp(t, Some(0)));
    UtcText(t);
    DateIsPlain(p.date);
    ClockIsPlain(p.clock);
    AppendPlain(PrintDate(p.date), PrintClock(p.clock));
  }

  lemma AppendPlain(a: Str, b: Str)
    requires Plain(a) && Plain(b)
    ensures Plain(a + [84] + b + [43, 48, 48, 58, 48, 48])
  {
    PlainConcat(a, [84]);
    PlainConcat(a + [84], b);
    PlainConcat(a + [84] + b, [43, 48, 48, 58, 48, 48]);
  }

  /** An offset of m minutes is m times sixty million microseconds. */
  lemma OffsetIsMinutes(local: int, minutes: int)
    ensures ToUtc(Stamp(local, Some(minutes))) ==
      if InRange(local - minutes * 60000000) then Some(local - minutes * 60000000) else None
  {
  }

  // ---- The object and its encoding -------------------------------------------

  /** Printable ASCII, but for the quote and the backslash. */
  predicate Plain(id: Str) { forall i :: 0 <= i < |id| ==> 32 <= id[i] < 127 && id[i] != 34 && id[i] != 92 }

  lemma {:induction false} PlainPrints(id: Str)
    requires Plain(id)
    ensures PrintChars(id) == id
  {
    if id != [] {
      PlainPrints(id[1..]);
      assert PrintChar(id[0]) == [id[0]];
      assert id == [id[0]] + id[1..];
    }
  }

  /** "key": "value", then the rest. */
  lemma MemberText(key: Str, value: Str, rest: Str)
    requires Plain(key) && Plain(value)
    ensures PrintMember(key, value, rest) == [34] + key + [34, 58, 32, 34] + value + [34] + rest
  {
    PlainPrints(key);
    PlainPrints(value);
    assert Quoted(key) == [34] + key + [34] && Quoted(value) == [34] + value + [34];
  }

  /** {"ts": "...", "id": "..."} */
  function ObjectText(ts: Str, id: Str): Str {
    [123] + ([34, 116, 115, 34, 58, 32, 34] + ts + [34]
             + ([44, 32] + ([34, 105, 100, 34, 58, 32, 34] + id + [34] + [125])))
  }

  lemma NamesText()
    ensures Plain(TS) && Plain(ID) && TS == [116, 115] && ID == [105, 100]
    ensures [34] + TS + [34, 58, 32, 34] == [34, 116, 115, 34, 58, 32, 34]
    ensures [34] + ID + [34, 58, 32, 34] == [34, 105, 100, 34, 58, 32, 34]
  {
  }

  lemma CursorPrints(ts: Str, id: Str)
    requires Plain(ts) && Plain(id)
    ensures PrintCursor(ts, id) == ObjectText(ts, id)
  {
    NamesText();
    MemberText(ID, id, [125]);
    MemberText(TS, ts, [44, 32] + PrintMember(ID, id, [125]));
  }

  /** A cursor with a plain id is the encoding of that object's text, byte by byte. */
  lemma CursorBytes(p: Pos)
    requires InRange(p.ts) && Plain(p.id)
    ensures var text := ObjectText(IsoFormat(Stamp(p.ts, Some(0))), p.id);
      IsAscii(text) && EncodeCursor(p) == Encode(AsciiBytes(text))
  {
    var ts := IsoFormat(Stamp(p.ts, Some(0)));
    UtcTextIsPlain(p.ts);
    CursorPrints(ts, p.id);
    CursorPrintsAscii(ts, p.id);
  }

  /** The test vectors of section 10 of RFC 4648, and the two characters of section 5. */
  lemma KnownEncodings()
    ensures Encode([]) == [] && Encode([102]) == [90, 103, 61, 61] && Encode([102, 111]) == [90, 109, 56, 61]
    ensures Encode([102, 111, 111]) == [90, 109, 57, 118]
    ensures Encode([255, 255, 255]) == [95, 95, 95, 95] && Encode([251, 239, 190]) == [45, 45, 45, 45]
  {
  }

  /** The alphabet: capitals, small letters, digits, then minus and underscore. */
  lemma Alphabet(v: Sextet)
    ensures v < 26 ==> Symbol(v) == 65 + v
    ensures 26 <= v < 52 ==> Symbol(v) == 97 + (v - 26)
    ensures 52 <= v < 62 ==> Symbol(v) == 48 + (v - 52)
    ensures v == 62 ==> Symbol(v) == 45
    ensures v == 63 ==> Symbol(v) == 95
  {
  }

  /** Escapes of section 7 of RFC 8259, as printed in ASCII: two characters for these, */
  lemma ShortEscapes()
    ensures PrintChar(34) == [92, 34] && PrintChar(92) == [92, 92] && PrintChar(10) == [92, 110]
    ensures PrintChar(9) == [92, 116] && PrintChar(13) == [92, 114]
    ensures PrintChar(8) == [92, 98] && PrintChar(12) == [92, 102]
  {
  }

  /** six for what else is not printable ASCII, */
  lemma LongEscapes()
    ensures PrintChar(233) == [92, 117, 48, 48, 101, 57] && PrintChar(0) == [92, 117, 48, 48, 48, 48]
    ensures PrintChar(127) == [92, 117, 48, 48, 55, 102]
  {
    assert Hex4(233) == [48, 48, 101, 57] && Hex4(0) == [48, 48, 48, 48] && Hex4(127) == [48, 48, 55, 102];
  }

  /** and a surrogate pair beyond the basic plane. */
  lemma PairEscape()
    ensures PrintChar(0x1F600) == [92, 117, 100, 56, 51, 100, 92, 117, 100, 101, 48, 48]
  {
    assert HighOf(0x1F600) == 0xD83D && LowOf(0x1F600) == 0xDE00;
    assert Hex4(0xD83D) == [100, 56, 51, 100] && Hex4(0xDE00) == [100, 101, 48, 48];
  }
}
