/** Timestamps as text: printed as by `isoformat`, read back as `fromisoformat` does
    for the format of section 5.6 of RFC 3339, with the offset optional. */
module IsoTimestamp {
  import opened Common
  import opened Text
  import opened Calendar

  const MICROS_PER_SECOND := 1000000
  const MICROS_PER_MINUTE := 60000000
  const MICROS_PER_DAY := 86400000000

  /** The instants of years 1 to 9999, in microseconds since the first of them. */
  const INSTANTS := 315537897600000000

  predicate InRange(t: int) { 0 <= t < INSTANTS }

  /** A wall-clock reading, with its UTC offset in minutes when it has one. */
  datatype Stamp = Stamp(local: int, offset: Option<int>)

  predicate ValidOffset(minutes: int) { -1440 < minutes < 1440 }

  predicate ValidStamp(s: Stamp) { InRange(s.local) && (s.offset.Some? ==> ValidOffset(s.offset.value)) }

  /** The instant of a reading; a reading without offset is taken as UTC. `None` when
      the instant leaves the representable years. */
  function ToUtc(s: Stamp): Option<int> {
    match s.offset
    case None => Some(s.local)
    case Some(minutes) =>
      var t := s.local - minutes * MICROS_PER_MINUTE;
      if InRange(t) then Some(t) else None
  }

  /** `_as_utc`: the same instant as a reading with offset zero. */
  function AsUtc(s: Stamp): Option<Stamp> {
    var t := ToUtc(s);
    if t.None? then None else Some(Stamp(t.value, Some(0)))
  }

  lemma AsUtcIdempotent(s: Stamp)
    requires ValidStamp(s) && AsUtc(s).Some?
    ensures AsUtc(AsUtc(s).value) == AsUtc(s) && ToUtc(AsUtc(s).value) == ToUtc(s)
  {
  }

  // ---- Digits ----------------------------------------------------------------

  function Limit(k: nat): nat { if k == 0 then 1 else 10 * Limit(k - 1) }

  /** `n` in exactly `k` decimal digits. */
  function Digits(n: nat, k: nat): Str
    requires n < Limit(k)
  {
    if k == 0 then [] else Digits(n / 10, k - 1) + ['0' as int + n % 10]
  }

  predicate IsDigit(c: CodePoint) { '0' as int <= c <= '9' as int }

  /** The number in the first `k` characters, and the rest. */
  function ReadDigits(s: Str, k: nat): (r: Option<(nat, Str)>)
    ensures r.Some? ==> r.value.0 < Limit(k) && |r.value.1| <= |s|
  {
    if k == 0 then Some((0, s))
    else
      var r :- ReadDigits(s, k - 1);
      if r.1 == [] || !IsDigit(r.1[0]) then None
      else Some((r.0 * 10 + (r.1[0] - '0' as int), r.1[1..]))
  }

  lemma {:induction false} DigitsRead(n: nat, k: nat, rest: Str)
    requires n < Limit(k)
    ensures ReadDigits(Digits(n, k) + rest, k) == Some((n, rest))
  {
    if k == 0 {
      assert Digits(n, k) + rest == rest;
    } else {
      var last := ['0' as int + n % 10];
      DigitsRead(n / 10, k - 1, last + rest);
      assert Digits(n, k) + rest == Digits(n / 10, k - 1) + (last + rest);
      assert (last + rest)[1..] == rest;
    }
  }

  // ---- Printing --------------------------------------------------------------

  const DASH := '-' as int
  const DOT := '.' as int
  const PLUS := '+' as int
  const LETTER_T := 'T' as int
  const LETTER_Z := 'Z' as int

  lemma Limits()
    ensures Limit(2) == 100 && Limit(4) == 10000 && Limit(6) == 1000000
  {
    assert Limit(1) == 10 && Limit(2) == 100 && Limit(3) == 1000;
    assert Limit(4) == 10000 && Limit(5) == 100000;
  }

  function Two(n: nat): Str
    requires n < 100
  {
    Limits();
    Digits(n, 2)
  }

  function PrintDate(d: Date): Str
    requires ValidDate(d)
  {
    Limits();
    Digits(d.year, 4) + ([DASH] + (Two(d.month) + ([DASH] + Two(d.day))))
  }

  /** Microseconds are left out when they are zero. */
  function PrintFraction(micros: nat): Str
    requires micros < 1000000
  {
    Limits();
    if micros == 0 then [] else [DOT] + Digits(micros, 6)
  }

  datatype Clock = Clock(hour: nat, minute: nat, second: nat, micros: nat)

  predicate ValidClock(c: Clock) { c.hour < 24 && c.minute < 60 && c.second < 60 && c.micros < 1000000 }

  /** The microseconds since midnight. */
  function SinceMidnight(c: Clock): (t: nat)
    requires ValidClock(c)
    ensures t < MICROS_PER_DAY
  {
    ((c.hour * 60 + c.minute) * 60 + c.second) * MICROS_PER_SECOND + c.micros
  }

  function ClockAt(t: nat): (c: Clock)
    requires t < MICROS_PER_DAY
    ensures ValidClock(c) && SinceMidnight(c) == t
  {
    var seconds := t / MICROS_PER_SECOND;
    Clock(seconds / 3600, seconds / 60 % 60, seconds % 60, t % MICROS_PER_SECOND)
  }

  function PrintClock(c: Clock): Str
    requires ValidClock(c)
  {
    Two(c.hour) + ([COLON] + (Two(c.minute) + ([COLON] + (Two(c.second) + PrintFraction(c.micros)))))
  }

  function PrintOffset(offset: Option<int>): Str
    requires offset.Some? ==> ValidOffset(offset.value)
  {
    if offset.None? then []
    else
      var m := if offset.value < 0 then -offset.value else offset.value;
      [if offset.value < 0 then DASH else PLUS] + (Two(m / 60) + ([COLON] + Two(m % 60)))
  }

  /** A timestamp taken apart. */
  datatype Parts = Parts(date: Date, clock: Clock, offset: Option<int>)

  predicate ValidParts(p: Parts) {
    ValidDate(p.date) && ValidClock(p.clock) && (p.offset.Some? ==> ValidOffset(p.offset.value))
  }

  function PartsOf(s: Stamp): (p: Parts)
    requires ValidStamp(s)
    ensures ValidParts(p)
  {
    Parts(FromOrdinal(s.local / MICROS_PER_DAY), ClockAt(s.local % MICROS_PER_DAY), s.offset)
  }

  function Assemble(p: Parts): (s: Stamp)
    requires ValidParts(p)
    ensures ValidStamp(s)
  {
    OrdinalInYear(p.date);
    Stamp(Ordinal(p.date) * MICROS_PER_DAY + SinceMidnight(p.clock), p.offset)
  }

  lemma PartsMakeWhole(s: Stamp)
    requires ValidStamp(s)
    ensures Assemble(PartsOf(s)) == s
  {
  }

  function PrintParts(p: Parts): Str
    requires ValidParts(p)
  {
    PrintDate(p.date) + ([LETTER_T] + (PrintClock(p.clock) + PrintOffset(p.offset)))
  }

  function IsoFormat(s: Stamp): Str
    requires ValidStamp(s)
  {
    PrintParts(PartsOf(s))
  }

  // ---- Reading ---------------------------------------------------------------

  function Expect(s: Str, c: CodePoint): Option<Str> {
    if s != [] && s[0] == c then Some(s[1..]) else None
  }

  function ReadDate(s: Str): (r: Option<(Date, Str)>)
    ensures r.Some? ==> ValidDate(r.value.0)
  {
    var year :- ReadDigits(s, 4);
    var s1 :- Expect(year.1, DASH);
    var month :- ReadDigits(s1, 2);
    var s2 :- Expect(month.1, DASH);
    var day :- ReadDigits(s2, 2);
    var d := Date(year.0, month.0, day.0);
    if ValidDate(d) then Some((d, day.1)) else None
  }

  function ReadFraction(s: Str): (r: Option<(nat, Str)>)
    ensures r.Some? ==> r.value.0 < 1000000
  {
    Limits();
    if Expect(s, DOT).None? then Some((0, s)) else ReadDigits(s[1..], 6)
  }

  function ReadClock(s: Str): (r: Option<(Clock, Str)>)
    ensures r.Some? ==> ValidClock(r.value.0)
  {
    var hour :- ReadDigits(s, 2);
    var s1 :- Expect(hour.1, COLON);
    var minute :- ReadDigits(s1, 2);
    var s2 :- Expect(minute.1, COLON);
    var second :- ReadDigits(s2, 2);
    var micros :- ReadFraction(second.1);
    var c := Clock(hour.0, minute.0, second.0, micros.0);
    if ValidClock(c) then Some((c, micros.1)) else None
  }

  /** The offset that ends a timestamp: none, `Z`, or a sign with hours and minutes. */
  function ReadOffset(s: Str): (r: Option<Option<int>>)
    ensures r.Some? && r.value.Some? ==> ValidOffset(r.value.value)
  {
    if s == [] then Some(None)
    else if s == [LETTER_Z] then Some(Some(0))
    else if s[0] != PLUS && s[0] != DASH then None
    else
      var hours :- ReadDigits(s[1..], 2);
      var s1 :- Expect(hours.1, COLON);
      var minutes :- ReadDigits(s1, 2);
      var m := hours.0 * 60 + minutes.0;
      if minutes.1 == [] && hours.0 < 24 && minutes.0 < 60 then Some(Some(if s[0] == DASH then -m else m)) else None
  }

  /** Any one character may separate date and time. */
  function ReadParts(s: Str): (r: Option<Parts>)
    ensures r.Some? ==> ValidParts(r.value)
  {
    var date :- ReadDate(s);
    if date.1 == [] then None
    else
      var clock :- ReadClock(date.1[1..]);
      var offset :- ReadOffset(clock.1);
      Some(Parts(date.0, clock.0, offset))
  }

  function FromIsoFormat(s: Str): (r: Option<Stamp>)
    ensures r.Some? ==> ValidStamp(r.value)
  {
    var parts :- ReadParts(s);
    Some(Assemble(parts))
  }

  /** The instant a timestamp names. */
  function Understood(s: Str): Option<int> {
    var stamp :- FromIsoFormat(s);
    ToUtc(stamp)
  }

  // ---- Round trip ------------------------------------------------------------

  lemma TwoReads(n: nat, rest: Str)
    requires n < 100
    ensures ReadDigits(Two(n) + rest, 2) == Some((n, rest))
  {
    Limits();
    DigitsRead(n, 2, rest);
  }

  lemma Expects(c: CodePoint, rest: Str)
    ensures Expect([c] + rest, c) == Some(rest)
  {
    assert ([c] + rest)[1..] == rest;
  }

  lemma DateReads(d: Date, rest: Str)
    requires ValidDate(d)
    ensures ReadDate(PrintDate(d) + rest) == Some((d, rest))
  {
    Limits();
    var s2 := Two(d.day) + rest;
    var s1 := Two(d.month) + ([DASH] + s2);
    assert PrintDate(d) + rest == Digits(d.year, 4) + ([DASH] + s1);
    DigitsRead(d.year, 4, [DASH] + s1);
    Expects(DASH, s1);
    TwoReads(d.month, [DASH] + s2);
    Expects(DASH, s2);
    TwoReads(d.day, rest);
  }

  lemma FractionReads(micros: nat, rest: Str)
    requires micros < 1000000 && Expect(rest, DOT).None?
    ensures ReadFraction(PrintFraction(micros) + rest) == Some((micros, rest))
  {
    Limits();
    if micros == 0 {
      assert PrintFraction(micros) + rest == rest;
    } else {
      assert PrintFraction(micros) + rest == [DOT] + (Digits(micros, 6) + rest);
      Expects(DOT, Digits(micros, 6) + rest);
      DigitsRead(micros, 6, rest);
    }
  }

  lemma ClockReads(c: Clock, rest: Str)
    requires ValidClock(c) && Expect(rest, DOT).None?
    ensures ReadClock(PrintClock(c) + rest) == Some((c, rest))
  {
    var s3 := PrintFraction(c.micros) + rest;
    var s2 := Two(c.second) + s3;
    var s1 := Two(c.minute) + ([COLON] + s2);
    assert PrintClock(c) + rest == Two(c.hour) + ([COLON] + s1);
    TwoReads(c.hour, [COLON] + s1);
    Expects(COLON, s1);
    TwoReads(c.minute, [COLON] + s2);
    Expects(COLON, s2);
    TwoReads(c.second, s3);
    FractionReads(c.micros, rest);
  }

  lemma OffsetReads(offset: Option<int>)
    requires offset.Some? ==> ValidOffset(offset.value)
    ensures ReadOffset(PrintOffset(offset)) == Some(offset)
    ensures Expect(PrintOffset(offset), DOT).None?
  {
    if offset.Some? {
      var m := if offset.value < 0 then -offset.value else offset.value;
      var s := PrintOffset(offset);
      var minutes := Two(m % 60);
      assert s[1..] == Two(m / 60) + ([COLON] + minutes);
      TwoReads(m / 60, [COLON] + minutes);
      Expects(COLON, minutes);
      TwoReads(m % 60, []);
      assert minutes + [] == minutes;
    }
  }

  lemma PartsRead(p: Parts)
    requires ValidParts(p)
    ensures ReadParts(PrintParts(p)) == Some(p)
  {
    var tail := PrintOffset(p.offset);
    OffsetReads(p.offset);
    ClockReads(p.clock, tail);
    DateReads(p.date, [LETTER_T] + (PrintClock(p.clock) + tail));
    Expects(LETTER_T, PrintClock(p.clock) + tail);
  }

  /** Every reading of every year, with any offset or none, survives printing. */
  lemma TimestampRoundTrip(s: Stamp)
    requires ValidStamp(s)
    ensures FromIsoFormat(IsoFormat(s)) == Some(s)
  {
    PartsRead(PartsOf(s));
    PartsMakeWhole(s);
  }

  /** The same instant read on a clock `minutes` ahead of UTC. */
  function ReadingAt(t: int, minutes: int): Stamp { Stamp(t + minutes * MICROS_PER_MINUTE, Some(minutes)) }

  lemma ReadingMeansInstant(t: int, minutes: int)
    requires InRange(t) && ValidOffset(minutes) && InRange(t + minutes * MICROS_PER_MINUTE)
    ensures ValidStamp(ReadingAt(t, minutes)) && ToUtc(ReadingAt(t, minutes)) == Some(t)
    ensures ValidStamp(Stamp(t, None)) && ToUtc(Stamp(t, None)) == Some(t)
  {
  }

  /** Whatever offset an instant is written with, across any rollover of day, month
      or year, it is read as that instant; without offset it is read as UTC. */
  lemma OffsetsAgree(t: int, minutes: int)
    requires InRange(t) && ValidOffset(minutes) && InRange(t + minutes * MICROS_PER_MINUTE)
    ensures Understood(IsoFormat(ReadingAt(t, minutes))) == Some(t) && Understood(IsoFormat(Stamp(t, None))) == Some(t)
  {
    ReadingMeansInstant(t, minutes);
    TimestampRoundTrip(ReadingAt(t, minutes));
    TimestampRoundTrip(Stamp(t, None));
  }
}
