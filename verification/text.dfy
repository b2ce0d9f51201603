/** Text as Python sees it: a sequence of code points, surrogates included,
    ordered code point by code point. */
module Text {

  type CodePoint = c: nat | c < 0x110000

  type Str = seq<CodePoint>

  const COLON := ':' as int

  /** Lexicographic order, the database's order on text keys. */
  predicate Less(a: Str, b: Str) {
    b != [] && (a == [] || a[0] < b[0] || (a[0] == b[0] && Less(a[1..], b[1..])))
  }

  lemma {:induction false} LessIrreflexive(a: Str)
    ensures !Less(a, a)
  {
    if a != [] { LessIrreflexive(a[1..]); }
  }

  lemma {:induction false} LessTransitive(a: Str, b: Str, c: Str)
    requires Less(a, b) && Less(b, c)
    ensures Less(a, c)
  {
    if a != [] && a[0] == b[0] == c[0] { LessTransitive(a[1..], b[1..], c[1..]); }
  }

  lemma {:induction false} LessTotal(a: Str, b: Str)
    ensures a == b || Less(a, b) || Less(b, a)
  {
    if a == [] || b == [] {
    } else if a[0] == b[0] {
      LessTotal(a[1..], b[1..]);
      assert a == [a[0]] + a[1..] && b == [b[0]] + b[1..];
    }
  }

  /** Two texts agree up to some place, where `a` ends or has the smaller code point. */
  ghost predicate SmallerAt(a: Str, b: Str, k: nat) {
    && k <= |a| && k < |b| && (forall j :: 0 <= j < k ==> a[j] == b[j])
    && (k == |a| || a[k] < b[k])
  }

  lemma SmallerCons(a: Str, b: Str, k: nat)
    requires a != [] && b != [] && a[0] == b[0]
    ensures SmallerAt(a, b, k + 1) <==> SmallerAt(a[1..], b[1..], k)
  {
    if SmallerAt(a, b, k + 1) {
      forall j | 0 <= j < k ensures a[1..][j] == b[1..][j] { assert a[j + 1] == b[j + 1]; }
    }
    if SmallerAt(a[1..], b[1..], k) {
      forall j | 0 <= j < k + 1 ensures a[j] == b[j] { if j > 0 { assert a[1..][j - 1] == b[1..][j - 1]; } }
    }
  }

  lemma {:induction false} LessMeans(a: Str, b: Str)
    ensures Less(a, b) <==> exists k: nat :: SmallerAt(a, b, k)
  {
    if b != [] && a != [] && a[0] == b[0] {
      LessMeans(a[1..], b[1..]);
      if k: nat :| SmallerAt(a[1..], b[1..], k) { SmallerCons(a, b, k); }
      if k: nat :| SmallerAt(a, b, k) { SmallerCons(a, b, k - 1); }
    } else if b != [] && (a == [] || a[0] < b[0]) {
      assert SmallerAt(a, b, 0);
    }
  }
}
