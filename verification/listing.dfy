/** The read side: one page of events, and walks that follow `next_cursor`
    (list_events in app/api/routes.py), at the level of cursor positions. */
module Listing {
  import opened Common
  import opened Text
  import opened Events

  /** What a row is ordered by, and what a cursor holds. */
  datatype Pos = Pos(ts: int, id: Str)

  /** `p` comes after the cursor `c`: the filter of the query. */
  predicate After(p: Pos, c: Pos) { p.ts < c.ts || (p.ts == c.ts && Less(p.id, c.id)) }

  lemma AfterTransitive(a: Pos, b: Pos, c: Pos)
    requires After(a, b) && After(b, c)
    ensures After(a, c)
  {
    if a.ts == b.ts == c.ts { LessTransitive(a.id, b.id, c.id); }
  }

  lemma AfterIrreflexive(a: Pos)
    ensures !After(a, a)
  {
    LessIrreflexive(a.id);
  }

  lemma AfterTotal(a: Pos, b: Pos)
    ensures a == b || After(a, b) || After(b, a)
  {
    LessTotal(a.id, b.id);
  }

  // ---- The sorted listing ----------------------------------------------------

  ghost predicate Descending(s: seq<Pos>) { forall i, j :: 0 <= i < j < |s| ==> After(s[j], s[i]) }

  lemma {:induction false} HasTop(S: set<Pos>) returns (m: Pos)
    requires S != {}
    ensures m in S && forall p :: p in S && p != m ==> After(p, m)
    decreases |S|
  {
    var x :| x in S;
    if S == {x} {
      m := x;
    } else {
      var rest := S - {x};
      assert S == rest + {x};
      var n := HasTop(rest);
      AfterTotal(x, n);
      if After(x, n) {
        m := n;
      } else {
        m := x;
        forall p | p in S && p != m ensures After(p, m) {
          if p != n { AfterTransitive(p, n, x); }
        }
      }
    }
  }

  /** `s` lists the set `S`, latest first: ORDER BY received_at DESC, id DESC. */
  ghost predicate Lists(s: seq<Pos>, S: set<Pos>) {
    Descending(s) && (forall p :: p in s ==> p in S) && (forall p :: p in S ==> p in s)
  }

  lemma ListingCons(m: Pos, rest: seq<Pos>, S: set<Pos>)
    requires m in S && Lists(rest, S - {m}) && forall p :: p in S && p != m ==> After(p, m)
    ensures Lists([m] + rest, S)
  {
    var s := [m] + rest;
    forall i | 1 <= i < |s| ensures After(s[i], m) {
      assert s[i] == rest[i - 1] && rest[i - 1] in rest;
    }
    forall p | p in S ensures p in s {
      if p == m { assert s[0] == p; } else { assert p in rest; }
    }
  }

  lemma {:induction false} HasListing(S: set<Pos>) returns (s: seq<Pos>)
    ensures Lists(s, S)
    decreases |S|
  {
    if S == {} {
      s := [];
    } else {
      var m := HasTop(S);
      var rest := HasListing(S - {m});
      s := [m] + rest;
      ListingCons(m, rest, S);
    }
  }

  ghost function Sorted(S: set<Pos>): (s: seq<Pos>)
    ensures Lists(s, S)
  {
    assert exists s :: Lists(s, S) by { var s := HasListing(S); }
    var s :| Lists(s, S); s
  }

  lemma EmptyIffNoMember(s: seq<Pos>)
    ensures s == [] <==> forall p :: p !in s
  {
    if s != [] { assert s[0] in s; }
  }

  /** A descending sequence is determined by its members. */
  lemma {:induction false} DescendingUnique(a: seq<Pos>, b: seq<Pos>)
    requires Descending(a) && Descending(b) && forall p :: p in a <==> p in b
    ensures a == b
  {
    EmptyIffNoMember(a);
    EmptyIffNoMember(b);
    if a != [] {
      assert a[0] in a && b != [] && b[0] in b;
      if a[0] != b[0] {
        assert After(a[0], b[0]) && After(b[0], a[0]);
        AfterTransitive(a[0], b[0], a[0]);
        AfterIrreflexive(a[0]);
      }
      AfterIrreflexive(a[0]);
      assert a == [a[0]] + a[1..] && b == [b[0]] + b[1..];
      forall p ensures p in a[1..] <==> p in b[1..] {
        assert p in a[1..] <==> p in a && p != a[0];
        assert p in b[1..] <==> p in b && p != b[0];
      }
      DescendingUnique(a[1..], b[1..]);
    }
  }

  lemma SortedIs(s: seq<Pos>, S: set<Pos>)
    requires Lists(s, S)
    ensures Sorted(S) == s
  {
    DescendingUnique(s, Sorted(S));
  }

  /** A descending sequence repeats nothing. */
  lemma {:induction false} ListLength(s: seq<Pos>, S: set<Pos>)
    requires Lists(s, S)
    ensures |s| == |S|
  {
    if s == [] {
      assert S == {};
    } else {
      AfterIrreflexive(s[0]);
      assert s == [s[0]] + s[1..];
      assert forall p :: p in s[1..] ==> After(p, s[0]);
      ListLength(s[1..], S - {s[0]});
    }
  }

  /** Listings are cut where the sets are. */
  lemma SortedSplits(S: set<Pos>, first: set<Pos>)
    requires first <= S && forall p, q :: p in first && q in S - first ==> After(q, p)
    ensures Sorted(S) == Sorted(first) + Sorted(S - first)
  {
    SortedIs(Sorted(first) + Sorted(S - first), S);
  }

  // ---- One page --------------------------------------------------------------

  /** One page of positions, and the position its `next_cursor` encodes. */
  datatype Page = Page(items: seq<Pos>, next: Option<Pos>)

  ghost function Below(S: set<Pos>, cursor: Option<Pos>): set<Pos> {
    set p | p in S && (cursor.None? || After(p, cursor.value))
  }

  /** The query asks for one row more than the page holds. */
  ghost function FetchPage(S: set<Pos>, cursor: Option<Pos>, limit: nat): Page {
    var all := Sorted(Below(S, cursor));
    var rows := all[..Min(limit + 1, |all|)];
    var hasMore := |rows| > limit;
    var items := rows[..Min(limit, |rows|)];
    Page(items, if hasMore && items != [] then Some(items[|items| - 1]) else None)
  }

  /** What follows a member of a descending sequence is what comes after it. */
  lemma CutAt(all: seq<Pos>, limit: nat)
    requires Descending(all) && 1 <= limit <= |all|
    ensures forall p :: p in all[limit..] <==> p in all && After(p, all[limit - 1])
    ensures forall p :: p in all[..limit] ==> p == all[limit - 1] || After(all[limit - 1], p)
  {
    var c := all[limit - 1];
    forall p | p in all && After(p, c) ensures p in all[limit..] {
      var j :| 0 <= j < |all| && all[j] == p;
      AfterIrreflexive(c);
      if j < limit - 1 { AfterTransitive(c, p, c); }
      assert all[limit..][j - limit] == p;
    }
  }

  /** The rows after the last of the first `limit` rows are the others. */
  lemma BelowCut(S: set<Pos>, cursor: Option<Pos>, limit: nat)
    requires 1 <= limit <= |Sorted(Below(S, cursor))|
    ensures var all := Sorted(Below(S, cursor)); Sorted(Below(S, Some(all[limit - 1]))) == all[limit..]
  {
    var all := Sorted(Below(S, cursor));
    var c := all[limit - 1];
    CutAt(all, limit);
    assert c in Below(S, cursor);
    forall p ensures p in all[limit..] <==> p in Below(S, Some(c)) {
      if p in S && After(p, c) && cursor.Some? { AfterTransitive(p, c, cursor.value); }
      assert p in all <==> p in Below(S, cursor);
    }
    SortedIs(all[limit..], Below(S, Some(c)));
  }

  /** A page is the next stretch of the listing, and what follows its cursor is the
      rest: nothing is skipped and nothing comes twice. There is a cursor exactly when
      there is a further matching row. */
  lemma PageIsNextStretch(S: set<Pos>, cursor: Option<Pos>, limit: nat)
    requires limit >= 1
    ensures var page, all := FetchPage(S, cursor, limit), Sorted(Below(S, cursor));
      if |all| > limit then
        && page == Page(all[..limit], Some(all[limit - 1]))
        && Sorted(Below(S, page.next)) == all[limit..]
      else page == Page(all, None)
  {
    var all := Sorted(Below(S, cursor));
    if |all| > limit { BelowCut(S, cursor, limit); }
  }

  // ---- Walks -----------------------------------------------------------------

  /** The cursor request k of a walk is made with. */
  ghost function CursorAt(start: Option<Pos>, pages: seq<Page>, k: nat): Option<Pos>
    requires k <= |pages|
  {
    if k == 0 then start else pages[k - 1].next
  }

  /** A client follows `next_cursor` from `start`, with a limit of its choice for each
      page; request k meets the matching rows `sets[k]`, whatever happened to the
      table since the request before. */
  ghost predicate IsWalk(start: Option<Pos>, sets: seq<set<Pos>>, limits: seq<nat>, pages: seq<Page>) {
    && |sets| == |limits| == |pages|
    && forall k :: 0 <= k < |pages| ==> Fetched(start, sets, limits, pages, k)
  }

  /** Page k is fetched at the cursor of the page before, which there is. */
  ghost predicate Fetched(start: Option<Pos>, sets: seq<set<Pos>>, limits: seq<nat>, pages: seq<Page>, k: nat)
    requires |sets| == |limits| == |pages| && k < |pages|
  {
    && limits[k] >= 1 && pages[k] == FetchPage(sets[k], CursorAt(start, pages, k), limits[k])
    && (k > 0 ==> pages[k - 1].next.Some?)
  }

  /** The client stopped because there was no `next_cursor`. */
  ghost predicate Finished(pages: seq<Page>) { pages != [] && pages[|pages| - 1].next.None? }

  ghost function Flatten(pages: seq<Page>): seq<Pos> {
    if pages == [] then [] else Flatten(pages[..|pages| - 1]) + pages[|pages| - 1].items
  }

  lemma WalkPrefix(start: Option<Pos>, sets: seq<set<Pos>>, limits: seq<nat>, pages: seq<Page>, k: nat)
    requires IsWalk(start, sets, limits, pages) && k <= |pages|
    ensures IsWalk(start, sets[..k], limits[..k], pages[..k])
  {
    forall i | 0 <= i < k ensures Fetched(start, sets[..k], limits[..k], pages[..k], i) {
      assert Fetched(start, sets, limits, pages, i);
      assert CursorAt(start, pages[..k], i) == CursorAt(start, pages, i);
    }
  }

  /** The items so far are those of a walk from `start` that stands at `cursor`. */
  ghost predicate StandsAt(start: Option<Pos>, before: seq<Pos>, cursor: Option<Pos>) {
    && Descending(before)
    && (before == [] ==> cursor == start)
    && (before != [] ==> cursor.Some? && cursor.value in before)
    && forall p :: p in before ==>
         (start.Some? ==> After(p, start.value)) && (p == cursor.value || After(cursor.value, p))
  }

  /** A page's items come after the cursor it was fetched with, up to its own. */
  lemma PageReaches(S: set<Pos>, cursor: Option<Pos>, limit: nat)
    requires limit >= 1
    ensures var page := FetchPage(S, cursor, limit);
      && Descending(page.items)
      && (forall p :: p in page.items ==> p in Below(S, cursor))
      && (page.next.Some? ==> StandsAt(cursor, page.items, page.next))
  {
    PageIsNextStretch(S, cursor, limit);
    var all := Sorted(Below(S, cursor));
    assert forall p :: p in all ==> p in Below(S, cursor);
    if |all| > limit { CutAt(all, limit); }
  }

  lemma ReachFurther(start: Option<Pos>, before: seq<Pos>, cursor: Option<Pos>, items: seq<Pos>)
    requires StandsAt(start, before, cursor) && Descending(items)
    requires forall p :: p in items ==> cursor.Some? ==> After(p, cursor.value)
    ensures Descending(before + items)
    ensures forall p :: p in items ==> start.Some? ==> After(p, start.value)
  {
    if before != [] {
      forall p | p in items && start.Some? ensures After(p, start.value) {
        AfterTransitive(p, cursor.value, start.value);
      }
      forall p, q | p in before && q in items ensures After(q, p) {
        if p != cursor.value { AfterTransitive(q, cursor.value, p); }
      }
      forall i, j | 0 <= i < j < |before + items| ensures After((before + items)[j], (before + items)[i]) {
        if i < |before| <= j { assert before[i] in before && items[j - |before|] in items; }
      }
    } else {
      assert before + items == items;
    }
  }

  lemma ReachNext(start: Option<Pos>, before: seq<Pos>, cursor: Option<Pos>, items: seq<Pos>, next: Option<Pos>)
    requires StandsAt(start, before, cursor) && StandsAt(cursor, items, next) && items != []
    ensures StandsAt(start, before + items, next)
  {
    ReachFurther(start, before, cursor, items);
    forall p | p in before ensures After(next.value, p) {
      assert After(next.value, cursor.value);
      if p != cursor.value { AfterTransitive(next.value, cursor.value, p); }
    }
  }

  /** Whatever is inserted, updated or deleted between pages, the pages together are
      strictly descending, so no event comes twice. */
  lemma {:induction false} WalkDescends(start: Option<Pos>, sets: seq<set<Pos>>, limits: seq<nat>, pages: seq<Page>)
    requires IsWalk(start, sets, limits, pages)
    ensures Descending(Flatten(pages))
    ensures !Finished(pages) ==> StandsAt(start, Flatten(pages), CursorAt(start, pages, |pages|))
  {
    if pages != [] {
      var k := |pages| - 1;
      WalkPrefix(start, sets, limits, pages, k);
      assert Fetched(start, sets, limits, pages, k);
      WalkDescends(start, sets[..k], limits[..k], pages[..k]);
      var cursor := CursorAt(start, pages, k);
      assert cursor == CursorAt(start, pages[..k], k);
      assert !Finished(pages[..k]);
      PageIsNextStretch(sets[k], cursor, limits[k]);
      PageReaches(sets[k], cursor, limits[k]);
      ReachFurther(start, Flatten(pages[..k]), cursor, pages[k].items);
      if pages[k].next.Some? { ReachNext(start, Flatten(pages[..k]), cursor, pages[k].items, pages[k].next); }
    }
  }

  /** Every matching row that is there throughout the walk has come, or is still
      ahead of the cursor; once the walk has finished, it has come. */
  lemma {:induction false} WalkMissesNothing(start: Option<Pos>, sets: seq<set<Pos>>, limits: seq<nat>,
                                             pages: seq<Page>, p: Pos)
    requires IsWalk(start, sets, limits, pages)
    requires start.Some? ==> After(p, start.value)
    requires forall k :: 0 <= k < |sets| ==> p in sets[k]
    ensures p in Flatten(pages)
      || (!Finished(pages) && (var c := CursorAt(start, pages, |pages|); c.Some? ==> After(p, c.value)))
  {
    if pages != [] {
      var k := |pages| - 1;
      WalkPrefix(start, sets, limits, pages, k);
      assert Fetched(start, sets, limits, pages, k);
      WalkMissesNothing(start, sets[..k], limits[..k], pages[..k], p);
      var cursor := CursorAt(start, pages, k);
      assert cursor == CursorAt(start, pages[..k], k);
      if p !in Flatten(pages[..k]) {
        PageIsNextStretch(sets[k], cursor, limits[k]);
        assert p in Sorted(Below(sets[k], cursor));
      }
    }
  }

  /** The rows a walk over the fixed set `S` still has ahead of it. */
  ghost function Ahead(S: set<Pos>, start: Option<Pos>, pages: seq<Page>): seq<Pos> {
    if Finished(pages) then [] else Sorted(Below(S, CursorAt(start, pages, |pages|)))
  }

  /** On a fixed table the pages so far and the rows still ahead are the listing. */
  lemma {:induction false} FixedWalkConserves(start: Option<Pos>, S: set<Pos>, sets: seq<set<Pos>>,
                                              limits: seq<nat>, pages: seq<Page>)
    requires IsWalk(start, sets, limits, pages) && forall k :: 0 <= k < |sets| ==> sets[k] == S
    ensures Sorted(Below(S, start)) == Flatten(pages) + Ahead(S, start, pages)
    ensures |pages| <= |Flatten(pages)| + (if Finished(pages) then 1 else 0)
  {
    if pages != [] {
      var k := |pages| - 1;
      WalkPrefix(start, sets, limits, pages, k);
      assert Fetched(start, sets, limits, pages, k);
      FixedWalkConserves(start, S, sets[..k], limits[..k], pages[..k]);
      assert CursorAt(start, pages[..k], k) == CursorAt(start, pages, k);
      assert !Finished(pages[..k]);
      StretchJoins(S, CursorAt(start, pages, k), limits[k]);
      assert Ahead(S, start, pages[..k]) == pages[k].items + Ahead(S, start, pages);
      Regroup(Flatten(pages[..k]), pages[k].items, Ahead(S, start, pages));
    }
  }

  lemma Regroup(xs: seq<Pos>, ys: seq<Pos>, zs: seq<Pos>)
    ensures xs + (ys + zs) == (xs + ys) + zs
  {
  }

  lemma StretchJoins(S: set<Pos>, cursor: Option<Pos>, limit: nat)
    requires limit >= 1
    ensures var page := FetchPage(S, cursor, limit);
      && Sorted(Below(S, cursor)) == page.items + (if page.next.Some? then Sorted(Below(S, page.next)) else [])
      && (page.next.Some? ==> |page.items| >= 1)
  {
    PageIsNextStretch(S, cursor, limit);
  }

  /** On a fixed table a finished walk yields exactly the listing, whatever the
      limits, and a walk makes at most one request more than there are rows. */
  lemma FixedWalkIsListing(S: set<Pos>, sets: seq<set<Pos>>, limits: seq<nat>, pages: seq<Page>)
    requires IsWalk(None, sets, limits, pages) && forall k :: 0 <= k < |sets| ==> sets[k] == S
    ensures Finished(pages) ==> Flatten(pages) == Sorted(S)
    ensures |pages| <= |S| + 1
  {
    FixedWalkConserves(None, S, sets, limits, pages);
    assert Below(S, None) == S;
    ListLength(Sorted(S), S);
  }

  // ---- Cleanup and the listing -----------------------------------------------

  ghost function Kept(S: set<Pos>, cutoff: int): set<Pos> { set p | p in S && !(p.ts < cutoff) }

  /** A cleanup cuts off a suffix of the listing after any cursor. */
  lemma CleanupTruncates(S: set<Pos>, cutoff: int, cursor: Option<Pos>)
    ensures Sorted(Below(S, cursor)) ==
      Sorted(Below(Kept(S, cutoff), cursor)) + Sorted(Below(S, cursor) - Kept(S, cutoff))
  {
    assert Below(Kept(S, cutoff), cursor) == Below(S, cursor) * Kept(S, cutoff);
    assert Below(S, cursor) - Below(Kept(S, cutoff), cursor) == Below(S, cursor) - Kept(S, cutoff);
    SortedSplits(Below(S, cursor), Below(Kept(S, cutoff), cursor));
  }

  /** A walk in progress when a cleanup runs goes on as the same walk over what is
      left: the pages before and after make a prefix of the listing as it was, and
      hold every row that was kept. */
  lemma CleanupDuringWalk(S: set<Pos>, cutoff: int,
                          sets1: seq<set<Pos>>, limits1: seq<nat>, pages1: seq<Page>,
                          sets2: seq<set<Pos>>, limits2: seq<nat>, pages2: seq<Page>)
    requires IsWalk(None, sets1, limits1, pages1) && (forall k :: 0 <= k < |sets1| ==> sets1[k] == S)
    requires !Finished(pages1)
    requires IsWalk(CursorAt(None, pages1, |pages1|), sets2, limits2, pages2) && Finished(pages2)
    requires forall k :: 0 <= k < |sets2| ==> sets2[k] == Kept(S, cutoff)
    ensures Flatten(pages1) + Flatten(pages2) <= Sorted(S)
    ensures forall p :: p in Kept(S, cutoff) ==> p in Flatten(pages1) + Flatten(pages2)
  {
    var c := CursorAt(None, pages1, |pages1|);
    FixedWalkConserves(None, S, sets1, limits1, pages1);
    FixedWalkConserves(c, Kept(S, cutoff), sets2, limits2, pages2);
    CleanupTruncates(S, cutoff, c);
    assert Below(S, None) == S;
    assert Sorted(S) == Flatten(pages1) + Sorted(Below(S, c));
    assert Sorted(Below(Kept(S, cutoff), c)) == Flatten(pages2);
    PrefixOf(Flatten(pages1), Flatten(pages2), Below(S, c) - Kept(S, cutoff), S, Kept(S, cutoff));
  }

  lemma PrefixOf(xs: seq<Pos>, ys: seq<Pos>, gone: set<Pos>, S: set<Pos>, kept: set<Pos>)
    requires Sorted(S) == xs + (ys + Sorted(gone)) && kept <= S && kept !! gone
    ensures xs + ys <= Sorted(S) && forall p :: p in kept ==> p in xs + ys
  {
    assert Sorted(S) == (xs + ys) + Sorted(gone);
    forall p | p in kept ensures p in xs + ys {
      assert p in Sorted(S) && p !in Sorted(gone);
    }
  }

  // ---- Tables ----------------------------------------------------------------

  function PosOf(t: Table, id: EventId): Pos
    requires id in t
  {
    Pos(t[id].receivedAt, id)
  }

  /** The source filter: an empty `source` parameter filters nothing. */
  predicate Selects(source: Option<Str>, e: Event) {
    source.None? || source.value == [] || e.source == source.value
  }

  function Matching(t: Table, source: Option<Str>): set<Pos> {
    set id | id in t && Selects(source, t[id]) :: PosOf(t, id)
  }

  lemma CleanupKeepsLater(t: Table, source: Option<Str>, cutoff: int)
    ensures Matching(Retained(t, cutoff), source) == Kept(Matching(t, source), cutoff)
  {
    forall p | p in Kept(Matching(t, source), cutoff) ensures p in Matching(Retained(t, cutoff), source) {
      assert p.id in Retained(t, cutoff) && PosOf(Retained(t, cutoff), p.id) == p;
    }
  }

  lemma {:induction false} OnePosPerRow(t: Table)
    ensures |Matching(t, None)| == |t|
    decreases |t|
  {
    if t == map[] {
      assert Matching(t, None) == {};
    } else {
      var id :| id in t;
      var rest := t - {id};
      OnePosPerRow(rest);
      assert Matching(t, None) == Matching(rest, None) + {PosOf(t, id)} by {
        forall p | p in Matching(t, None) && p.id != id ensures p in Matching(rest, None) {
          assert p.id in rest && PosOf(rest, p.id) == p;
        }
        forall p | p in Matching(rest, None) ensures p in Matching(t, None) {
          assert p.id in t && PosOf(t, p.id) == p;
        }
        assert PosOf(t, id) in Matching(t, None);
      }
      assert PosOf(t, id) !in Matching(rest, None);
    }
  }

  lemma CleanupPartitions(t: Table, cutoff: int)
    ensures |t| == |Retained(t, cutoff)| + |Expired(t, cutoff)|
  {
    assert t.Keys == Retained(t, cutoff).Keys + Expired(t, cutoff).Keys;
    assert Retained(t, cutoff).Keys !! Expired(t, cutoff).Keys;
  }

  lemma ListingLength(t: Table)
    ensures |Sorted(Matching(t, None))| == |t|
  {
    ListLength(Sorted(Matching(t, None)), Matching(t, None));
    OnePosPerRow(t);
  }

  /** A cleanup removes a suffix of the listing, of every source, and the count it
      returns is the length of the suffix removed from the whole listing. */
  lemma CleanupRemovesSuffix(t: Table, source: Option<Str>, cutoff: int)
    ensures Sorted(Matching(Retained(t, cutoff), source)) <= Sorted(Matching(t, source))
    ensures |Sorted(Matching(t, None))| == |Sorted(Matching(Retained(t, cutoff), None))| + |Expired(t, cutoff)|
  {
    CleanupKeepsLater(t, source, cutoff);
    CleanupTruncates(Matching(t, source), cutoff, None);
    assert Below(Matching(t, source), None) == Matching(t, source);
    assert Below(Kept(Matching(t, source), cutoff), None) == Kept(Matching(t, source), cutoff);
    ListingLength(t);
    ListingLength(Retained(t, cutoff));
    CleanupPartitions(t, cutoff);
  }

  /** Two cleanups, the later cutoff last, are one cleanup, and their counts add up. */
  lemma CleanupsCompose(t: Table, c1: int, c2: int)
    requires c1 <= c2
    ensures Retained(Retained(t, c1), c2) == Retained(t, c2)
    ensures |Expired(t, c1)| + |Expired(Retained(t, c1), c2)| == |Expired(t, c2)|
  {
    assert Retained(Retained(t, c1), c2) == Retained(t, c2);
    var first, second := Expired(t, c1).Keys, Expired(Retained(t, c1), c2).Keys;
    assert Expired(t, c2).Keys == first + second && first !! second;
    assert |Expired(t, c2).Keys| == |first| + |second|;
  }
}
