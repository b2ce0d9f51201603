/** The JSON object inside a cursor: printed in ASCII as by `json.dumps`, and read
    back by the grammar of section 7 of RFC 8259, for objects whose members are
    strings. */
module CursorJson {
  import opened Common
  import opened Text

  const QUOTE := '"' as int
  const BACKSLASH := '\\' as int
  const SMALL_U := 'u' as int
  const LBRACE := '{' as int
  const RBRACE := '}' as int
  const COMMA := ',' as int
  const SPACE := ' ' as int

  // ---- Surrogates ------------------------------------------------------------

  predicate IsHigh(c: int) { 0xD800 <= c < 0xDC00 }

  predicate IsLow(c: int) { 0xDC00 <= c < 0xE000 }

  function Join(high: nat, low: nat): CodePoint
    requires IsHigh(high) && IsLow(low)
  {
    0x10000 + (high - 0xD800) * 0x400 + (low - 0xDC00)
  }

  function HighOf(c: CodePoint): nat
    requires c >= 0x10000
  {
    0xD800 + (c - 0x10000) / 0x400
  }

  function LowOf(c: CodePoint): nat
    requires c >= 0x10000
  {
    0xDC00 + (c - 0x10000) % 0x400
  }

  /** The text with every high surrogate that meets a low one joined to it. */
  function Joined(s: Str): Str {
    if |s| < 2 then s
    else if IsHigh(s[0]) && IsLow(s[1]) then [Join(s[0], s[1])] + Joined(s[2..])
    else [s[0]] + Joined(s[1..])
  }

  /** A high surrogate directly before a low one, as two code points. */
  predicate HasSplitPair(s: Str) {
    |s| >= 2 && ((IsHigh(s[0]) && IsLow(s[1])) || HasSplitPair(s[1..]))
  }

  lemma {:induction false} JoinedIsSameIff(s: Str)
    ensures |Joined(s)| <= |s|
    ensures Joined(s) == s <==> !HasSplitPair(s)
  {
    if |s| >= 2 {
      if IsHigh(s[0]) && IsLow(s[1]) {
        JoinedIsSameIff(s[2..]);
      } else {
        JoinedIsSameIff(s[1..]);
        assert s == [s[0]] + s[1..] && Joined(s)[1..] == Joined(s[1..]);
      }
    }
  }

  // ---- Strings ---------------------------------------------------------------

  function Hex(d: nat): CodePoint
    requires d < 16
  {
    if d < 10 then '0' as int + d else 'a' as int + (d - 10)
  }

  function HexValue(c: CodePoint): (r: Option<nat>)
    ensures r.Some? ==> r.value < 16
  {
    if '0' as int <= c <= '9' as int then Some(c - '0' as int)
    else if 'a' as int <= c <= 'f' as int then Some(c - 'a' as int + 10)
    else if 'A' as int <= c <= 'F' as int then Some(c - 'A' as int + 10)
    else None
  }

  function Hex4(n: nat): Str
    requires n < 0x10000
  {
    [Hex(n / 4096), Hex(n / 256 % 16), Hex(n / 16 % 16), Hex(n % 16)]
  }

  function HexValue4(a: CodePoint, b: CodePoint, c: CodePoint, d: CodePoint): (r: Option<nat>)
    ensures r.Some? ==> r.value < 0x10000
  {
    var x, y, z, w := HexValue(a), HexValue(b), HexValue(c), HexValue(d);
    if x.Some? && y.Some? && z.Some? && w.Some?
    then Some(x.value * 4096 + y.value * 256 + z.value * 16 + w.value) else None
  }

  /** The value of a `\uXXXX` escape at the start of `t`, if there is one. */
  function UnicodeEscape(t: Str): (r: Option<nat>)
    ensures r.Some? ==> |t| >= 6 && r.value < 0x10000
  {
    if |t| >= 6 && t[0] == BACKSLASH && t[1] == SMALL_U then HexValue4(t[2], t[3], t[4], t[5]) else None
  }

  /** The letter of a two-character escape, if the code point has one. */
  function ShortEscape(c: CodePoint): Option<CodePoint> {
    if c == QUOTE || c == BACKSLASH then Some(c)
    else if c == 8 then Some('b' as int)
    else if c == 9 then Some('t' as int)
    else if c == 10 then Some('n' as int)
    else if c == 12 then Some('f' as int)
    else if c == 13 then Some('r' as int)
    else None
  }

  function ShortUnescape(letter: CodePoint): Option<CodePoint> {
    if letter == QUOTE || letter == BACKSLASH || letter == '/' as int then Some(letter)
    else if letter == 'b' as int then Some(8)
    else if letter == 't' as int then Some(9)
    else if letter == 'n' as int then Some(10)
    else if letter == 'f' as int then Some(12)
    else if letter == 'r' as int then Some(13)
    else None
  }

  function Escaped(n: nat): Str
    requires n < 0x10000
  {
    [BACKSLASH, SMALL_U] + Hex4(n)
  }

  /** How one code point is printed: everything outside printable ASCII is escaped. */
  function PrintChar(c: CodePoint): Str {
    if ShortEscape(c).Some? then [BACKSLASH, ShortEscape(c).value]
    else if 32 <= c < 127 then [c]
    else if c < 0x10000 then Escaped(c)
    else Escaped(HighOf(c)) + Escaped(LowOf(c))
  }

  function PrintChars(s: Str): Str {
    if s == [] then [] else PrintChar(s[0]) + PrintChars(s[1..])
  }

  function Quoted(s: Str): Str { [QUOTE] + PrintChars(s) + [QUOTE] }

  datatype Read = Bad | Read(value: Str, rest: Str)

  function Cons(c: CodePoint, r: Read): Read {
    if r.Bad? then Bad else Read([c] + r.value, r.rest)
  }

  /** Reads a string whose opening quote has been read, up to its closing quote. */
  function ReadString(t: Str): (r: Read)
    ensures r.Read? ==> |r.rest| < |t|
  {
    if t == [] then Bad
    else if t[0] == QUOTE then Read([], t[1..])
    else if t[0] < 32 then Bad
    else if t[0] != BACKSLASH then Cons(t[0], ReadString(t[1..]))
    else if |t| < 2 then Bad
    else if t[1] != SMALL_U then
      if ShortUnescape(t[1]).None? then Bad else Cons(ShortUnescape(t[1]).value, ReadString(t[2..]))
    else
      var n := UnicodeEscape(t);
      if n.None? then Bad
      else
        var low := UnicodeEscape(t[6..]);
        if IsHigh(n.value) && low.Some? && IsLow(low.value) then Cons(Join(n.value, low.value), ReadString(t[12..]))
        else Cons(n.value, ReadString(t[6..]))
  }

  lemma FourDigits(n: nat)
    requires n < 0x10000
    ensures n / 4096 < 16 && n == n / 4096 * 4096 + n / 256 % 16 * 256 + n / 16 % 16 * 16 + n % 16
  {
    var p := n / 16;
    var q := p / 16;
    assert n / 256 == q && n / 4096 == q / 16;
  }

  lemma HexReads(d: nat)
    requires d < 16
    ensures HexValue(Hex(d)) == Some(d)
  {
  }

  lemma Hex4Reads(n: nat, rest: Str)
    requires n < 0x10000
    ensures UnicodeEscape(Escaped(n) + rest) == Some(n)
    ensures |Escaped(n)| == 6 && (Escaped(n) + rest)[6..] == rest
  {
    FourDigits(n);
    EscapeReads(n / 4096, n / 256 % 16, n / 16 % 16, n % 16, rest);
  }

  lemma EscapeReads(a: nat, b: nat, c: nat, d: nat, rest: Str)
    requires a < 16 && b < 16 && c < 16 && d < 16
    ensures var t := [BACKSLASH, SMALL_U] + [Hex(a), Hex(b), Hex(c), Hex(d)] + rest;
      t[6..] == rest && UnicodeEscape(t) == Some(a * 4096 + b * 256 + c * 16 + d)
  {
    HexReads(a);
    HexReads(b);
    HexReads(c);
    HexReads(d);
  }

  /** Only a low surrogate prints as the escape of one. */
  lemma PrintsLowIff(c: CodePoint, rest: Str)
    ensures var e := UnicodeEscape(PrintChar(c) + rest); (e.Some? && IsLow(e.value)) <==> IsLow(c)
  {
    if ShortEscape(c).None? && !(32 <= c < 127) {
      if c < 0x10000 {
        Hex4Reads(c, rest);
      } else {
        Hex4Reads(HighOf(c), Escaped(LowOf(c)) + rest);
        AstralPrints(c, rest);
      }
    }
  }

  lemma EscapedReads(n: nat, rest: Str)
    requires n < 0x10000
    ensures var low := UnicodeEscape(rest);
      !(IsHigh(n) && low.Some? && IsLow(low.value)) ==> ReadString(Escaped(n) + rest) == Cons(n, ReadString(rest))
  {
    Hex4Reads(n, rest);
  }

  lemma EscapedPairReads(high: nat, low: nat, rest: Str)
    requires IsHigh(high) && IsLow(low)
    ensures ReadString(Escaped(high) + (Escaped(low) + rest)) == Cons(Join(high, low), ReadString(rest))
  {
    var t := Escaped(high) + (Escaped(low) + rest);
    Hex4Reads(high, Escaped(low) + rest);
    Hex4Reads(low, rest);
    assert t[12..] == t[6..][6..];
  }

  lemma ShortReads(c: CodePoint, rest: Str)
    requires ShortEscape(c).Some?
    ensures ReadString(PrintChar(c) + rest) == Cons(c, ReadString(rest))
  {
    var t := PrintChar(c) + rest;
    assert t[0] == BACKSLASH && t[1] == ShortEscape(c).value && t[2..] == rest;
  }

  lemma PlainReads(c: CodePoint, rest: Str)
    requires ShortEscape(c).None? && 32 <= c < 127
    ensures ReadString(PrintChar(c) + rest) == Cons(c, ReadString(rest))
  {
    assert (PrintChar(c) + rest)[1..] == rest;
  }

  lemma JoinOfSplit(c: CodePoint)
    requires c >= 0x10000
    ensures IsHigh(HighOf(c)) && IsLow(LowOf(c)) && Join(HighOf(c), LowOf(c)) == c
  {
  }

  lemma AstralPrints(c: CodePoint, rest: Str)
    requires c >= 0x10000
    ensures PrintChar(c) + rest == Escaped(HighOf(c)) + (Escaped(LowOf(c)) + rest)
  {
    var high, low := Escaped(HighOf(c)), Escaped(LowOf(c));
    assert high + low + rest == high + (low + rest);
  }

  lemma AstralReads(c: CodePoint, rest: Str)
    requires c >= 0x10000
    ensures ReadString(PrintChar(c) + rest) == Cons(c, ReadString(rest))
  {
    AstralPrints(c, rest);
    JoinOfSplit(c);
    EscapedPairReads(HighOf(c), LowOf(c), rest);
  }

  /** A printed code point reads back as itself, unless it is a high surrogate and
      the escape of a low one follows. */
  lemma CharReads(c: CodePoint, rest: Str)
    requires IsHigh(c) ==> UnicodeEscape(rest).None? || !IsLow(UnicodeEscape(rest).value)
    ensures ReadString(PrintChar(c) + rest) == Cons(c, ReadString(rest))
  {
    if ShortEscape(c).Some? {
      ShortReads(c, rest);
    } else if 32 <= c < 127 {
      PlainReads(c, rest);
    } else if c < 0x10000 {
      EscapedReads(c, rest);
    } else {
      AstralReads(c, rest);
    }
  }

  /** What follows a code point, when printed, starts with the escape of a low
      surrogate only if the next code point is one. */
  lemma NextPrintsLow(s: Str, rest: Str)
    ensures var e := UnicodeEscape(PrintChars(s) + ([QUOTE] + rest));
      e.Some? && IsLow(e.value) ==> s != [] && IsLow(s[0])
  {
    if s == [] {
      assert PrintChars(s) + ([QUOTE] + rest) == [QUOTE] + rest;
    } else {
      PrintsStep(s, [QUOTE] + rest);
      PrintsLowIff(s[0], PrintChars(s[1..]) + ([QUOTE] + rest));
    }
  }

  lemma SurrogatePrints(c: CodePoint)
    requires IsHigh(c) || IsLow(c)
    ensures PrintChar(c) == Escaped(c)
  {
  }

  lemma PrintsStep(s: Str, tail: Str)
    requires s != []
    ensures PrintChars(s) + tail == PrintChar(s[0]) + (PrintChars(s[1..]) + tail)
  {
  }

  lemma JoinedStep(s: Str)
    requires s != [] && !(|s| >= 2 && IsHigh(s[0]) && IsLow(s[1]))
    ensures Joined(s) == [s[0]] + Joined(s[1..])
  {
  }

  lemma JoinedPair(s: Str)
    requires |s| >= 2 && IsHigh(s[0]) && IsLow(s[1])
    ensures Joined(s) == [Join(s[0], s[1])] + Joined(s[2..])
  {
  }

  lemma PairReads(s: Str, tail: Str)
    requires |s| >= 2 && IsHigh(s[0]) && IsLow(s[1])
    ensures ReadString(PrintChars(s) + tail) == Cons(Join(s[0], s[1]), ReadString(PrintChars(s[2..]) + tail))
  {
    PrintsStep(s, tail);
    PrintsStep(s[1..], tail);
    assert s[1..][1..] == s[2..] && s[1..][0] == s[1];
    SurrogatePrints(s[0]);
    SurrogatePrints(s[1]);
    EscapedPairReads(s[0], s[1], PrintChars(s[2..]) + tail);
  }

  /** A printed string reads back joined. */
  lemma {:induction false} CharsRead(s: Str, rest: Str)
    ensures ReadString(PrintChars(s) + ([QUOTE] + rest)) == Read(Joined(s), rest)
    decreases |s|
  {
    var tail := [QUOTE] + rest;
    if s == [] {
      EndReads(rest);
    } else if |s| >= 2 && IsHigh(s[0]) && IsLow(s[1]) {
      CharsRead(s[2..], rest);
      PairReads(s, tail);
      JoinedPair(s);
    } else {
      CharsRead(s[1..], rest);
      PrintsStep(s, tail);
      NextPrintsLow(s[1..], rest);
      CharReads(s[0], PrintChars(s[1..]) + tail);
      JoinedStep(s);
    }
  }

  lemma EndReads(rest: Str)
    ensures ReadString(PrintChars([]) + ([QUOTE] + rest)) == Read(Joined([]), rest)
  {
    assert PrintChars([]) + ([QUOTE] + rest) == [QUOTE] + rest && ([QUOTE] + rest)[1..] == rest;
  }

  lemma QuotedReads(s: Str, rest: Str)
    ensures var t := Quoted(s) + rest; t[0] == QUOTE && ReadString(t[1..]) == Read(Joined(s), rest)
  {
    assert (Quoted(s) + rest)[1..] == PrintChars(s) + ([QUOTE] + rest);
    CharsRead(s, rest);
  }

  // ---- Objects ---------------------------------------------------------------

  function SkipSpace(t: Str): (r: Str)
    ensures |r| <= |t|
  {
    if t != [] && (t[0] == SPACE || t[0] == 9 || t[0] == 10 || t[0] == 13) then SkipSpace(t[1..]) else t
  }

  predicate StartsWith(t: Str, c: CodePoint) { t != [] && t[0] == c }

  datatype Members = NoMembers | Members(list: seq<(Str, Str)>, rest: Str)

  function Add(key: Str, value: Str, m: Members): Members {
    if m.NoMembers? then NoMembers else Members([(key, value)] + m.list, m.rest)
  }

  /** Reads members from an opening quote up to the closing brace. */
  function ReadMembers(t: Str): Members
    decreases |t|
  {
    if !StartsWith(t, QUOTE) then NoMembers
    else
      var key := ReadString(t[1..]);
      if key.Bad? || !StartsWith(SkipSpace(key.rest), COLON) then NoMembers
      else
        var u := SkipSpace(SkipSpace(key.rest)[1..]);
        if !StartsWith(u, QUOTE) then NoMembers
        else
          var value := ReadString(u[1..]);
          if value.Bad? then NoMembers
          else
            var v := SkipSpace(value.rest);
            if StartsWith(v, RBRACE) then Members([(key.value, value.value)], v[1..])
            else if StartsWith(v, COMMA) then Add(key.value, value.value, ReadMembers(SkipSpace(v[1..])))
            else NoMembers
  }

  /** The members of the one object in `t`, and nothing else but white space. */
  function ParseObject(t: Str): Option<seq<(Str, Str)>> {
    var u := SkipSpace(t);
    if !StartsWith(u, LBRACE) then None
    else
      var v := SkipSpace(u[1..]);
      var m := if StartsWith(v, RBRACE) then Members([], v[1..]) else ReadMembers(v);
      if m.NoMembers? || SkipSpace(m.rest) != [] then None else Some(m.list)
  }

  /** The value of a member; the last one counts when a name is repeated. */
  function Field(list: seq<(Str, Str)>, name: Str): Option<Str> {
    if list == [] then None
    else if list[|list| - 1].0 == name then Some(list[|list| - 1].1)
    else Field(list[..|list| - 1], name)
  }

  /** The names "ts" and "id". */
  const TS: Str := [116, 115]
  const ID: Str := [105, 100]

  function PrintMember(key: Str, value: Str, rest: Str): Str {
    Quoted(key) + ([COLON, SPACE] + (Quoted(value) + rest))
  }

  /** The object with members "ts" and "id", separated as `json.dumps` does. */
  function PrintCursor(ts: Str, id: Str): Str {
    [LBRACE] + PrintMember(TS, ts, [COMMA, SPACE] + PrintMember(ID, id, [RBRACE]))
  }

  lemma SkipsOne(rest: Str)
    requires rest != [] && rest[0] == QUOTE
    ensures SkipSpace(rest) == rest && SkipSpace([SPACE] + rest) == rest
  {
    assert ([SPACE] + rest)[1..] == rest;
  }

  lemma ColonReads(quoted: Str)
    requires StartsWith(quoted, QUOTE)
    ensures var after := [COLON, SPACE] + quoted;
      StartsWith(SkipSpace(after), COLON) && SkipSpace(SkipSpace(after)[1..]) == quoted
  {
    var after := [COLON, SPACE] + quoted;
    SkipsOne(quoted);
    assert SkipSpace(after) == after && after[1..] == [SPACE] + quoted;
  }

  /** A printed member is read up to what follows it. */
  lemma MemberReads(key: Str, value: Str, rest: Str)
    requires StartsWith(rest, RBRACE) || StartsWith(rest, COMMA)
    ensures ReadMembers(PrintMember(key, value, rest)) ==
      if rest[0] == RBRACE then Members([(Joined(key), Joined(value))], rest[1..])
      else Add(Joined(key), Joined(value), ReadMembers(SkipSpace(rest[1..])))
  {
    var quoted := Quoted(value) + rest;
    QuotedReads(key, [COLON, SPACE] + quoted);
    ColonReads(quoted);
    QuotedReads(value, rest);
    assert SkipSpace(rest) == rest;
  }

  lemma MemberBeforeAnother(key: Str, value: Str, next: Str)
    requires StartsWith(next, QUOTE)
    ensures ReadMembers(PrintMember(key, value, [COMMA, SPACE] + next)) ==
      Add(Joined(key), Joined(value), ReadMembers(next))
  {
    var rest := [COMMA, SPACE] + next;
    MemberReads(key, value, rest);
    SkipsOne(next);
    assert rest[1..] == [SPACE] + next;
  }

  lemma NamesAreJoined()
    ensures Joined(TS) == TS && Joined(ID) == ID
  {
    JoinedIsSameIff(TS);
    JoinedIsSameIff(ID);
  }

  lemma LastMemberReads(id: Str)
    ensures ReadMembers(PrintMember(ID, id, [RBRACE])) == Members([(ID, Joined(id))], [])
  {
    MemberReads(ID, id, [RBRACE]);
    NamesAreJoined();
  }

  lemma BothMembersRead(ts: Str, id: Str)
    ensures ReadMembers(PrintMember(TS, ts, [COMMA, SPACE] + PrintMember(ID, id, [RBRACE]))) ==
      Members([(TS, Joined(ts)), (ID, Joined(id))], [])
  {
    MemberBeforeAnother(TS, ts, PrintMember(ID, id, [RBRACE]));
    LastMemberReads(id);
    NamesAreJoined();
    Pair((TS, Joined(ts)), (ID, Joined(id)));
  }

  lemma Pair(a: (Str, Str), b: (Str, Str))
    ensures [a] + [b] == [a, b]
  {
  }

  /** The printed object reads back with its two members joined. */
  lemma CursorObjectReads(ts: Str, id: Str)
    ensures ParseObject(PrintCursor(ts, id)) == Some([(TS, Joined(ts)), (ID, Joined(id))])
  {
    var members := PrintMember(TS, ts, [COMMA, SPACE] + PrintMember(ID, id, [RBRACE]));
    assert members[0] == QUOTE;
    var t := [LBRACE] + members;
    assert t[1..] == members && SkipSpace(t) == t && SkipSpace(members) == members;
    BothMembersRead(ts, id);
  }

  // ---- Everything printed is ASCII -------------------------------------------

  predicate IsAscii(s: Str) { forall i :: 0 <= i < |s| ==> s[i] < 128 }

  lemma AsciiConcat(a: Str, b: Str)
    requires IsAscii(a) && IsAscii(b)
    ensures IsAscii(a + b)
  {
  }

  lemma {:induction false} CharsPrintAscii(s: Str)
    ensures IsAscii(PrintChars(s))
  {
    if s != [] {
      CharsPrintAscii(s[1..]);
      AsciiConcat(PrintChar(s[0]), PrintChars(s[1..]));
    }
  }

  lemma MemberPrintsAscii(key: Str, value: Str, rest: Str)
    requires IsAscii(rest)
    ensures IsAscii(PrintMember(key, value, rest))
  {
    CharsPrintAscii(key);
    CharsPrintAscii(value);
    AsciiConcat(Quoted(value), rest);
    AsciiConcat([COLON, SPACE], Quoted(value) + rest);
    AsciiConcat(Quoted(key), [COLON, SPACE] + (Quoted(value) + rest));
  }

  lemma CursorPrintsAscii(ts: Str, id: Str)
    ensures PrintCursor(ts, id) != [] && IsAscii(PrintCursor(ts, id))
  {
    var last := PrintMember(ID, id, [RBRACE]);
    MemberPrintsAscii(ID, id, [RBRACE]);
    AsciiConcat([COMMA, SPACE], last);
    MemberPrintsAscii(TS, ts, [COMMA, SPACE] + last);
    AsciiConcat([LBRACE], PrintMember(TS, ts, [COMMA, SPACE] + last));
  }
}
