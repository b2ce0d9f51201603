/** GET /events as its clients see it: responses, opaque cursors, and walks over a
    table that changes while they go on. */
module Pagination {
  import opened Common
  import opened Text
  import opened Relay
  import opened Events
  import opened Listing
  import opened IsoTimestamp
  import opened CursorJson
  import opened Cursor
  import opened Protocol
  import opened Lifecycle
  import opened Runs

  /** An event as listed. */
  datatype EventItem = EventItem(
    id: EventId,
    source: Str,
    receivedAt: int,
    key: Option<Str>,
    relay: Option<RelayResult>)

  function ItemOf(t: Table, id: EventId): EventItem
    requires id in t
  {
    EventItem(id, t[id].source, t[id].receivedAt, t[id].key, EventRelayResult(t[id].relay))
  }

  datatype Response = InvalidCursor | EventsList(events: seq<EventItem>, nextCursor: Option<Str>)

  /** What can be stored: timestamps of representable years, ids that are Unicode text. */
  ghost predicate Storable(t: Table) {
    forall id :: id in t ==> InRange(t[id].receivedAt) && !HasSplitPair(id)
  }

  /** The position a request starts after; `None` inside for the first page, `None`
      outside for the 400 answer. An empty cursor is no cursor. */
  function CursorParameter(cursor: Option<Str>): Option<Option<Pos>> {
    if cursor.None? || cursor.value == [] then Some(None)
    else
      var p :- DecodeCursor(cursor.value);
      Some(Some(p))
  }

  lemma PageIsInTable(t: Table, source: Option<Str>, cursor: Option<Pos>, limit: nat)
    requires limit >= 1
    ensures var page := FetchPage(Matching(t, source), cursor, limit);
      && (forall p :: p in page.items ==> p.id in t && p == PosOf(t, p.id) && Selects(source, t[p.id]))
      && (page.next.Some? ==> page.next.value in page.items)
  {
    PageReaches(Matching(t, source), cursor, limit);
  }

  /** The events at these positions. */
  function EventsAt(t: Table, items: seq<Pos>): seq<EventItem>
    requires forall p :: p in items ==> p.id in t
  {
    seq(|items|, i requires 0 <= i < |items| => assert items[i] in items; ItemOf(t, items[i].id))
  }

  ghost function PageEvents(t: Table, source: Option<Str>, start: Option<Pos>, limit: nat): seq<EventItem>
    requires 1 <= limit
  {
    PageIsInTable(t, source, start, limit);
    EventsAt(t, FetchPage(Matching(t, source), start, limit).items)
  }

  ghost function PageCursor(t: Table, source: Option<Str>, start: Option<Pos>, limit: nat): Option<Str>
    requires Storable(t) && 1 <= limit
  {
    PageIsInTable(t, source, start, limit);
    var page := FetchPage(Matching(t, source), start, limit);
    if page.next.None? then None else Some(EncodeCursor(page.next.value))
  }

  /** The response that starts after `start`. */
  ghost function ListFrom(t: Table, source: Option<Str>, start: Option<Pos>, limit: nat): Response
    requires Storable(t) && 1 <= limit
  {
    EventsList(PageEvents(t, source, start, limit), PageCursor(t, source, start, limit))
  }

  /** list_events: `limit` is between 1 and 100. */
  ghost function ListEvents(t: Table, source: Option<Str>, cursor: Option<Str>, limit: nat): Response
    requires Storable(t) && 1 <= limit
  {
    match CursorParameter(cursor)
    case None => InvalidCursor
    case Some(start) => ListFrom(t, source, start, limit)
  }

  // ---- Walks -----------------------------------------------------------------

  /** The `next_cursor` of a response; none in a refusal. */
  function NextOf(response: Response): Option<Str> {
    if response.InvalidCursor? then None else response.nextCursor
  }

  function EventsOf(response: Response): seq<EventItem> {
    if response.InvalidCursor? then [] else response.events
  }

  /** The cursor request k is made with. */
  function CursorOf(responses: seq<Response>, k: nat): Option<Str>
    requires k <= |responses|
  {
    if k == 0 then None else NextOf(responses[k - 1])
  }

  /** A client reads from the first page on, following each `next_cursor`; request k
      meets `tables[k]`. */
  ghost predicate IsClientWalk(tables: seq<Table>, source: Option<Str>, limits: seq<nat>, responses: seq<Response>) {
    && |tables| == |limits| == |responses|
    && (forall k :: 0 <= k < |tables| ==> Storable(tables[k]))
    && (forall k :: 0 <= k < |limits| ==> limits[k] >= 1)
    && (forall k :: 0 <= k < |responses| - 1 ==> NextOf(responses[k]).Some?)
    && (forall k {:trigger Responds(tables[k], source, CursorOf(responses, k), limits[k], responses[k])} ::
          0 <= k < |responses| ==> Responds(tables[k], source, CursorOf(responses, k), limits[k], responses[k]))
  }

  /** The client stopped because there was no `next_cursor`. */
  ghost predicate Stopped(responses: seq<Response>) {
    responses != [] && NextOf(responses[|responses| - 1]).None?
  }

  ghost predicate Responds(t: Table, source: Option<Str>, cursor: Option<Str>, limit: nat, response: Response)
    requires Storable(t) && limit >= 1
  {
    response == ListEvents(t, source, cursor, limit)
  }

  /** The position of a listed event. */
  function PositionOf(e: EventItem): Pos { Pos(e.receivedAt, e.id) }

  function PositionsOf(events: seq<EventItem>): seq<Pos> {
    seq(|events|, i requires 0 <= i < |events| => PositionOf(events[i]))
  }

  /** All events of a walk, in the order they came. */
  function AllEvents(responses: seq<Response>): seq<EventItem> {
    if responses == [] then []
    else AllEvents(responses[..|responses| - 1]) + EventsOf(responses[|responses| - 1])
  }

  ghost function Sets(tables: seq<Table>, source: Option<Str>): seq<set<Pos>> {
    seq(|tables|, k requires 0 <= k < |tables| => Matching(tables[k], source))
  }

  /** The position of the last event listed. */
  function LastOf(events: seq<EventItem>): Option<Pos> {
    if events == [] then None else Some(PositionOf(events[|events| - 1]))
  }

  /** A listed event is a selected row of the table, with that row's own values. */
  ghost predicate ShowsRow(t: Table, source: Option<Str>, e: EventItem) {
    e.id in t && e == ItemOf(t, e.id) && Selects(source, t[e.id])
  }

  /** A response shows the page it was made from. */
  ghost predicate Shows(response: Response, page: Page, t: Table, source: Option<Str>) {
    && response.EventsList? && PositionsOf(response.events) == page.items
    && (forall e :: e in response.events ==> ShowsRow(t, source, e))
    && (response.nextCursor.None? <==> page.next.None?)
    && (page.next.Some? ==> page.next == LastOf(response.events))
  }

  lemma EventsShowPage(t: Table, source: Option<Str>, start: Option<Pos>, limit: nat)
    requires 1 <= limit
    ensures var page, events := FetchPage(Matching(t, source), start, limit), PageEvents(t, source, start, limit);
      && PositionsOf(events) == page.items && (forall e :: e in events ==> ShowsRow(t, source, e))
      && (page.next.Some? ==> page.next == LastOf(events))
  {
    PageIsInTable(t, source, start, limit);
    PageEnds(Matching(t, source), start, limit);
    EventsAtShow(t, source, FetchPage(Matching(t, source), start, limit).items);
    LastOfPositions(PageEvents(t, source, start, limit));
  }

  lemma CursorShowsPage(t: Table, source: Option<Str>, start: Option<Pos>, limit: nat)
    requires Storable(t) && 1 <= limit
    ensures PageCursor(t, source, start, limit).None? <==> FetchPage(Matching(t, source), start, limit).next.None?
  {
  }

  lemma PageEnds(S: set<Pos>, start: Option<Pos>, limit: nat)
    ensures var page := FetchPage(S, start, limit);
      page.next.Some? ==> page.items != [] && page.next.value == page.items[|page.items| - 1]
  {
  }

  lemma ResponseShowsPage(t: Table, source: Option<Str>, start: Option<Pos>, limit: nat)
    requires Storable(t) && 1 <= limit
    ensures Shows(ListFrom(t, source, start, limit), FetchPage(Matching(t, source), start, limit), t, source)
  {
    EventsShowPage(t, source, start, limit);
    CursorShowsPage(t, source, start, limit);
  }

  lemma EventsAtShow(t: Table, source: Option<Str>, items: seq<Pos>)
    requires forall p :: p in items ==> p.id in t && p == PosOf(t, p.id) && Selects(source, t[p.id])
    ensures PositionsOf(EventsAt(t, items)) == items
    ensures forall e :: e in EventsAt(t, items) ==> ShowsRow(t, source, e)
  {
    forall i | 0 <= i < |items|
      ensures PositionOf(EventsAt(t, items)[i]) == items[i] && ShowsRow(t, source, EventsAt(t, items)[i])
    {
      assert items[i] in items;
    }
  }

  lemma LastOfPositions(events: seq<EventItem>)
    ensures events != [] ==> LastOf(events) == Some(PositionsOf(events)[|events| - 1])
  {
  }

  /** `next_cursor` names the last event listed. */
  lemma NextCursorNamesLast(t: Table, source: Option<Str>, start: Option<Pos>, limit: nat)
    requires Storable(t) && 1 <= limit
    ensures var r := ListFrom(t, source, start, limit);
      r.nextCursor.Some? ==> CursorParameter(r.nextCursor) == Some(LastOf(r.events))
  {
    var page := FetchPage(Matching(t, source), start, limit);
    ResponseShowsPage(t, source, start, limit);
    PageIsInTable(t, source, start, limit);
    if page.next.Some? { CursorRoundTrip(page.next.value); }
  }

  /** Where page k of a walk starts: after the last event of the page before. */
  function StartOf(responses: seq<Response>, k: nat): Option<Pos>
    requires k <= |responses|
  {
    if k == 0 then None else LastOf(EventsOf(responses[k - 1]))
  }

  /** The pages behind the responses. */
  ghost function Pages(tables: seq<Table>, source: Option<Str>, limits: seq<nat>, responses: seq<Response>): seq<Page>
    requires IsClientWalk(tables, source, limits, responses)
  {
    seq(|responses|, k requires 0 <= k < |responses| =>
      FetchPage(Matching(tables[k], source), StartOf(responses, k), limits[k]))
  }

  /** A response lists what follows its cursor, and hands out the next. */
  lemma RespondsFrom(t: Table, source: Option<Str>, cursor: Option<Str>, limit: nat, response: Response)
    requires Storable(t) && limit >= 1 && Responds(t, source, cursor, limit, response) && response.EventsList?
    ensures CursorParameter(cursor).Some? && response == ListFrom(t, source, CursorParameter(cursor).value, limit)
    ensures response.nextCursor.Some? ==> CursorParameter(response.nextCursor) == Some(LastOf(response.events))
  {
    NextCursorNamesLast(t, source, CursorParameter(cursor).value, limit);
  }

  lemma CursorStands(tables: seq<Table>, source: Option<Str>, limits: seq<nat>, responses: seq<Response>, k: nat)
    requires IsClientWalk(tables, source, limits, responses) && 1 <= k < |responses|
    ensures CursorParameter(NextOf(responses[k - 1])) == Some(LastOf(EventsOf(responses[k - 1])))
  {
    assert Responds(tables[k - 1], source, CursorOf(responses, k - 1), limits[k - 1], responses[k - 1]);
    RespondsFrom(tables[k - 1], source, CursorOf(responses, k - 1), limits[k - 1], responses[k - 1]);
  }

  lemma NotRefused(t: Table, source: Option<Str>, cursor: Option<Str>, limit: nat, response: Response)
    requires Storable(t) && limit >= 1 && Responds(t, source, cursor, limit, response) && CursorParameter(cursor).Some?
    ensures response.EventsList?
  {
  }

  /** Following `next_cursor` never gets the 400 answer. */
  lemma CursorsAreAccepted(tables: seq<Table>, source: Option<Str>, limits: seq<nat>, responses: seq<Response>, k: nat)
    requires IsClientWalk(tables, source, limits, responses) && k < |responses|
    ensures responses[k].EventsList?
  {
    if k > 0 { CursorStands(tables, source, limits, responses, k); }
    assert Responds(tables[k], source, CursorOf(responses, k), limits[k], responses[k]);
    NotRefused(tables[k], source, CursorOf(responses, k), limits[k], responses[k]);
  }

  ghost predicate ShownAt(responses: seq<Response>, pages: seq<Page>, tables: seq<Table>, source: Option<Str>, k: nat)
    requires k < |responses| == |pages| == |tables|
  {
    Shows(responses[k], pages[k], tables[k], source)
  }

  lemma PageShown(tables: seq<Table>, source: Option<Str>, limits: seq<nat>, responses: seq<Response>, k: nat)
    requires IsClientWalk(tables, source, limits, responses) && k < |responses|
    ensures |tables| == |responses| && ShownAt(responses, Pages(tables, source, limits, responses), tables, source, k)
  {
    CursorsAreAccepted(tables, source, limits, responses, k);
    if k > 0 { CursorStands(tables, source, limits, responses, k); }
    assert Responds(tables[k], source, CursorOf(responses, k), limits[k], responses[k]);
    RespondsFrom(tables[k], source, CursorOf(responses, k), limits[k], responses[k]);
    ResponseShowsPage(tables[k], source, StartOf(responses, k), limits[k]);
  }

  lemma PageIsFetched(tables: seq<Table>, source: Option<Str>, limits: seq<nat>, responses: seq<Response>, k: nat)
    requires IsClientWalk(tables, source, limits, responses) && k < |responses|
    ensures |tables| == |limits| == |responses|
    ensures Fetched(None, Sets(tables, source), limits, Pages(tables, source, limits, responses), k)
  {
    if k > 0 { PageShown(tables, source, limits, responses, k - 1); }
  }

  lemma AllFetched(tables: seq<Table>, source: Option<Str>, limits: seq<nat>, responses: seq<Response>)
    requires IsClientWalk(tables, source, limits, responses)
    ensures IsWalk(None, Sets(tables, source), limits, Pages(tables, source, limits, responses))
  {
    var sets, pages := Sets(tables, source), Pages(tables, source, limits, responses);
    forall k | 0 <= k < |pages| ensures Fetched(None, sets, limits, pages, k) {
      PageIsFetched(tables, source, limits, responses, k);
    }
  }

  lemma AllShown(tables: seq<Table>, source: Option<Str>, limits: seq<nat>, responses: seq<Response>)
    requires IsClientWalk(tables, source, limits, responses)
    ensures var pages := Pages(tables, source, limits, responses);
      && |responses| == |pages| == |tables|
      && (forall k :: 0 <= k < |pages| ==> ShownAt(responses, pages, tables, source, k))
  {
    var pages := Pages(tables, source, limits, responses);
    forall k | 0 <= k < |pages| ensures ShownAt(responses, pages, tables, source, k) {
      PageShown(tables, source, limits, responses, k);
    }
  }

  lemma ShownFinished(responses: seq<Response>, pages: seq<Page>, tables: seq<Table>, source: Option<Str>)
    requires |responses| == |pages| == |tables| >= 1 && ShownAt(responses, pages, tables, source, |pages| - 1)
    ensures Finished(pages) <==> Stopped(responses)
  {
  }

  /** A client walk is a walk over the positions. */
  lemma ClientWalkIsWalk(tables: seq<Table>, source: Option<Str>, limits: seq<nat>, responses: seq<Response>)
    requires IsClientWalk(tables, source, limits, responses)
    ensures var pages := Pages(tables, source, limits, responses);
      && IsWalk(None, Sets(tables, source), limits, pages)
      && PositionsOf(AllEvents(responses)) == Flatten(pages)
      && (Finished(pages) <==> Stopped(responses))
  {
    var pages := Pages(tables, source, limits, responses);
    AllFetched(tables, source, limits, responses);
    AllShown(tables, source, limits, responses);
    EventsFlatten(responses, pages, tables, source);
    if responses != [] { ShownFinished(responses, pages, tables, source); }
  }

  lemma PositionsConcat(xs: seq<EventItem>, ys: seq<EventItem>)
    ensures PositionsOf(xs + ys) == PositionsOf(xs) + PositionsOf(ys)
  {
  }

  lemma {:induction false} EventsFlatten(responses: seq<Response>, pages: seq<Page>, tables: seq<Table>,
                                         source: Option<Str>)
    requires |responses| == |pages| == |tables|
    requires forall k :: 0 <= k < |pages| ==> ShownAt(responses, pages, tables, source, k)
    ensures PositionsOf(AllEvents(responses)) == Flatten(pages)
  {
    if pages != [] {
      var m := |pages| - 1;
      ShownPrefix(responses, pages, tables, source, m);
      EventsFlatten(responses[..m], pages[..m], tables[..m], source);
      PositionsConcat(AllEvents(responses[..m]), EventsOf(responses[m]));
      assert ShownAt(responses, pages, tables, source, m);
    }
  }

  lemma ShownPrefix(responses: seq<Response>, pages: seq<Page>, tables: seq<Table>, source: Option<Str>, m: nat)
    requires m <= |responses| == |pages| == |tables|
    requires forall k :: 0 <= k < |pages| ==> ShownAt(responses, pages, tables, source, k)
    ensures forall k :: 0 <= k < m ==> ShownAt(responses[..m], pages[..m], tables[..m], source, k)
  {
    forall k | 0 <= k < m ensures ShownAt(responses[..m], pages[..m], tables[..m], source, k) {
      assert ShownAt(responses, pages, tables, source, k);
    }
  }

  /** Where a listed event comes from. */
  lemma {:induction false} EventsComeFromTables(responses: seq<Response>, tables: seq<Table>, pages: seq<Page>,
                                                source: Option<Str>, e: EventItem)
    returns (k: nat)
    requires |responses| == |tables| == |pages| && e in AllEvents(responses)
    requires forall k :: 0 <= k < |pages| ==> ShownAt(responses, pages, tables, source, k)
    ensures k < |tables| && e in EventsOf(responses[k]) && ShowsRow(tables[k], source, e)
  {
    var n := |responses| - 1;
    assert ShownAt(responses, pages, tables, source, n);
    if e in EventsOf(responses[n]) {
      k := n;
    } else {
      ShownPrefix(responses, pages, tables, source, n);
      k := EventsComeFromTables(responses[..n], tables[..n], pages[..n], source, e);
    }
  }

  /** The event e was listed by some response, as the row of the table that it met. */
  ghost predicate ListedAsRow(responses: seq<Response>, tables: seq<Table>, source: Option<Str>, e: EventItem)
    requires |responses| == |tables|
  {
    exists k :: 0 <= k < |tables| && e in EventsOf(responses[k]) && ShowsRow(tables[k], source, e)
  }

  /** Nothing is listed that is not there: every event of a walk is a selected row of the
      table its request met, with that row's own source, key and relay columns. */
  lemma ListedEventsAreRows(tables: seq<Table>, source: Option<Str>, limits: seq<nat>, responses: seq<Response>,
                            e: EventItem)
    requires IsClientWalk(tables, source, limits, responses) && e in AllEvents(responses)
    ensures |responses| == |tables| && ListedAsRow(responses, tables, source, e)
  {
    AllShown(tables, source, limits, responses);
    var k := EventsComeFromTables(responses, tables, Pages(tables, source, limits, responses), source, e);
    assert e in EventsOf(responses[k]) && ShowsRow(tables[k], source, e);
  }

  // ---- Main results ----------------------------------------------------------

  /** On a fixed table a finished walk yields exactly the source's rows, latest first,
      each with its own values, whatever the limits, in at most one request more than
      there are rows. */
  lemma WalkOverFixedTable(t: Table, tables: seq<Table>, source: Option<Str>, limits: seq<nat>,
                           responses: seq<Response>)
    requires IsClientWalk(tables, source, limits, responses) && forall k :: 0 <= k < |tables| ==> tables[k] == t
    ensures |responses| <= |Matching(t, source)| + 1
    ensures forall e :: e in AllEvents(responses) ==> ShowsRow(t, source, e)
    ensures Stopped(responses) ==>
      PositionsOf(AllEvents(responses)) == Sorted(Matching(t, source))
  {
    forall e | e in AllEvents(responses) ensures ShowsRow(t, source, e) {
      FixedWalkShowsRow(t, tables, source, limits, responses, e);
    }
    FixedWalkPositions(t, tables, source, limits, responses);
  }

  lemma FixedWalkShowsRow(t: Table, tables: seq<Table>, source: Option<Str>, limits: seq<nat>,
                          responses: seq<Response>, e: EventItem)
    requires IsClientWalk(tables, source, limits, responses) && forall k :: 0 <= k < |tables| ==> tables[k] == t
    requires e in AllEvents(responses)
    ensures ShowsRow(t, source, e)
  {
    ListedEventsAreRows(tables, source, limits, responses, e);
  }

  lemma FixedWalkPositions(t: Table, tables: seq<Table>, source: Option<Str>, limits: seq<nat>,
                           responses: seq<Response>)
    requires IsClientWalk(tables, source, limits, responses) && forall k :: 0 <= k < |tables| ==> tables[k] == t
    ensures |responses| <= |Matching(t, source)| + 1
    ensures Stopped(responses) ==> PositionsOf(AllEvents(responses)) == Sorted(Matching(t, source))
  {
    var sets := Sets(tables, source);
    assert forall k :: 0 <= k < |sets| ==> sets[k] == Matching(t, source);
    ClientWalkIsWalk(tables, source, limits, responses);
    FixedWalkIsListing(Matching(t, source), sets, limits, Pages(tables, source, limits, responses));
  }

  /** The tables a walk meets are those of a run of the service, in order. */
  ghost predicate MetDuring(states: seq<State>, times: seq<nat>, tables: seq<Table>) {
    && |times| == |tables|
    && (forall k :: 0 <= k < |times| ==> times[k] < |states| && tables[k] == states[times[k]].table)
    && (forall j, k :: 0 <= j <= k < |times| ==> times[j] <= times[k])
  }

  ghost predicate SelectedThroughout(tables: seq<Table>, source: Option<Str>, id: EventId) {
    forall k :: 0 <= k < |tables| ==> id in tables[k] && Selects(source, tables[k][id])
  }

  /** A row keeps its position in every table of a run that holds it. */
  lemma PositionsAreStable(states: seq<State>, actions: seq<Action>, times: seq<nat>, tables: seq<Table>,
                           j: nat, k: nat, id: EventId)
    requires Reachable(states, actions) && MetDuring(states, times, tables) && j < |tables| && k < |tables|
    requires id in tables[j] && id in tables[k]
    ensures tables[j][id].receivedAt == tables[k][id].receivedAt && tables[j][id].source == tables[k][id].source
  {
    if j <= k {
      RowsEvolve(states, actions, times[j], times[k]);
    } else {
      RowsEvolve(states, actions, times[k], times[j]);
    }
  }

  /** While the service runs on, inserting, relaying and cleaning up between the
      pages, even removing the row a cursor was made from, a walk lists its events
      strictly descending, no event twice, each as a selected row that was there, and once
      it has finished it has listed every selected event that was there throughout. */
  lemma WalkUnderInterference(states: seq<State>, actions: seq<Action>, times: seq<nat>, tables: seq<Table>,
                              source: Option<Str>, limits: seq<nat>, responses: seq<Response>)
    requires Reachable(states, actions) && MetDuring(states, times, tables)
    requires IsClientWalk(tables, source, limits, responses)
    ensures var events := AllEvents(responses);
      && Descending(PositionsOf(events))
      && (forall i, j :: 0 <= i < j < |events| ==> events[i].id != events[j].id)
      && |responses| == |tables| && (forall e :: e in events ==> ListedAsRow(responses, tables, source, e))
    ensures Stopped(responses) ==>
      forall id :: SelectedThroughout(tables, source, id) ==>
        exists i :: 0 <= i < |AllEvents(responses)| && AllEvents(responses)[i].id == id
  {
    var events := AllEvents(responses);
    var pages := Pages(tables, source, limits, responses);
    ClientWalkIsWalk(tables, source, limits, responses);
    WalkDescends(None, Sets(tables, source), limits, pages);
    AllShown(tables, source, limits, responses);
    forall i, j | 0 <= i < j < |events| ensures events[i].id != events[j].id {
      var ki := EventsComeFromTables(responses, tables, pages, source, events[i]);
      var kj := EventsComeFromTables(responses, tables, pages, source, events[j]);
      assert After(PositionsOf(events)[j], PositionsOf(events)[i]);
      if events[i].id == events[j].id {
        PositionsAreStable(states, actions, times, tables, ki, kj, events[i].id);
        AfterIrreflexive(PositionOf(events[i]));
      }
    }
    forall e | e in events ensures ListedAsRow(responses, tables, source, e) {
      ListedEventsAreRows(tables, source, limits, responses, e);
    }
    if Stopped(responses) {
      forall id | SelectedThroughout(tables, source, id)
        ensures exists i :: 0 <= i < |events| && events[i].id == id
      {
        PresentIsListed(states, actions, times, tables, source, limits, responses, id);
      }
    }
  }

  lemma PresentIsListed(states: seq<State>, actions: seq<Action>, times: seq<nat>, tables: seq<Table>,
                        source: Option<Str>, limits: seq<nat>, responses: seq<Response>, id: EventId)
    requires Reachable(states, actions) && MetDuring(states, times, tables)
    requires IsClientWalk(tables, source, limits, responses) && Stopped(responses)
    requires SelectedThroughout(tables, source, id)
    ensures exists i :: 0 <= i < |AllEvents(responses)| && AllEvents(responses)[i].id == id
  {
    var pages := Pages(tables, source, limits, responses);
    var p := PosOf(tables[0], id);
    ClientWalkIsWalk(tables, source, limits, responses);
    forall k | 0 <= k < |tables| ensures p in Sets(tables, source)[k] {
      PositionsAreStable(states, actions, times, tables, 0, k, id);
      assert p == PosOf(tables[k], id);
    }
    WalkMissesNothing(None, Sets(tables, source), limits, pages, p);
    var i :| 0 <= i < |Flatten(pages)| && Flatten(pages)[i] == p;
    assert PositionsOf(AllEvents(responses))[i] == p;
  }

  // ---- The listing, field by field -------------------------------------------

  /** No source parameter, an empty one, or this very source. */
  predicate SourceIs(source: Option<Str>, name: Str) { source == None || source == Some([]) || source == Some(name) }

  /** A listed event carries the values of its row. */
  ghost predicate CarriesRow(e: EventItem, t: Table) {
    e.id in t &&
    var row := t[e.id];
    && e.source == row.source && e.receivedAt == row.receivedAt && e.key == row.key
    && (e.relay == None <==> row.relay.status == None)
    && (e.relay.Some? ==>
          var r := e.relay.value;
          && (r.attempted <==> row.relay.attempted != 0) && (r.success <==> row.relay.success != 0)
          && r.reason == row.relay.reason && r.statusCode == row.relay.lastStatusCode
          && r.attempts == row.relay.attempts && r.lastError == row.relay.lastError
          && r.lastAttemptAt == row.relay.lastAttemptAt)
  }

  /** Latest first, and among those received at once the larger id first. */
  ghost predicate Precedes(e: EventItem, f: EventItem) {
    e.receivedAt > f.receivedAt || (e.receivedAt == f.receivedAt && exists k: nat :: SmallerAt(f.id, e.id, k))
  }

  ghost predicate ThereThroughout(tables: seq<Table>, source: Option<Str>, id: EventId) {
    forall k :: 0 <= k < |tables| ==> id in tables[k] && SourceIs(source, tables[k][id].source)
  }

  /** The events of a walk under interference, said of their fields. */
  lemma WalkInFields(states: seq<State>, actions: seq<Action>, times: seq<nat>, tables: seq<Table>,
                     source: Option<Str>, limits: seq<nat>, responses: seq<Response>)
    requires Reachable(states, actions) && MetDuring(states, times, tables)
    requires IsClientWalk(tables, source, limits, responses)
    ensures var events := AllEvents(responses);
      && (forall e :: e in events ==>
            SourceIs(source, e.source) && exists k :: 0 <= k < |tables| && CarriesRow(e, tables[k]))
      && (forall i, j :: 0 <= i < j < |events| ==> Precedes(events[i], events[j]))
      && (Stopped(responses) ==>
            forall id :: ThereThroughout(tables, source, id) ==> exists i :: 0 <= i < |events| && events[i].id == id)
  {
    var events := AllEvents(responses);
    WalkUnderInterference(states, actions, times, tables, source, limits, responses);
    forall e | e in events
      ensures SourceIs(source, e.source) && exists k :: 0 <= k < |tables| && CarriesRow(e, tables[k])
    {
      var k :| 0 <= k < |tables| && e in EventsOf(responses[k]) && ShowsRow(tables[k], source, e);
      assert CarriesRow(e, tables[k]);
    }
    forall i, j | 0 <= i < j < |events| ensures Precedes(events[i], events[j]) {
      assert After(PositionsOf(events)[j], PositionsOf(events)[i]);
      LessMeans(events[j].id, events[i].id);
    }
    forall id | Stopped(responses) && ThereThroughout(tables, source, id)
      ensures exists i :: 0 <= i < |events| && events[i].id == id
    {
      assert SelectedThroughout(tables, source, id);
    }
  }

  /** The events of a finished walk over a fixed table are the rows of the source asked
      for, all of them and no other, each once. */
  lemma FixedWalkInFields(t: Table, tables: seq<Table>, source: Option<Str>, limits: seq<nat>, responses: seq<Response>)
    requires IsClientWalk(tables, source, limits, responses) && forall k :: 0 <= k < |tables| ==> tables[k] == t
    requires Stopped(responses)
    ensures var events := AllEvents(responses);
      && (forall e :: e in events ==> SourceIs(source, e.source) && CarriesRow(e, t))
      && (forall i, j :: 0 <= i < j < |events| ==> Precedes(events[i], events[j]))
      && (forall id :: id in t && SourceIs(source, t[id].source) ==>
            exists i :: 0 <= i < |events| && events[i].id == id)
  {
    var events := AllEvents(responses);
    WalkOverFixedTable(t, tables, source, limits, responses);
    forall e | e in events ensures SourceIs(source, e.source) && CarriesRow(e, t) {
      assert ShowsRow(t, source, e);
    }
    forall i, j | 0 <= i < j < |events| ensures Precedes(events[i], events[j]) {
      assert After(PositionsOf(events)[j], PositionsOf(events)[i]);
      LessMeans(events[j].id, events[i].id);
    }
    forall id | id in t && SourceIs(source, t[id].source) ensures exists i :: 0 <= i < |events| && events[i].id == id {
      assert PosOf(t, id) in Matching(t, source);
      assert PosOf(t, id) in PositionsOf(events);
      var i :| 0 <= i < |events| && PositionsOf(events)[i] == PosOf(t, id);
      assert events[i].id == id;
    }
  }

  /** A missing or empty cursor gives the first page; any other text is refused exactly
      when it does not decode. */
  lemma CursorParameterMeans(t: Table, source: Option<Str>, cursor: Option<Str>, limit: nat)
    requires Storable(t) && 1 <= limit
    ensures ListEvents(t, source, cursor, limit).InvalidCursor? <==>
      cursor != None && cursor != Some([]) && DecodeCursor(cursor.value) == None
    ensures cursor == None || cursor == Some([]) ==>
      ListEvents(t, source, cursor, limit) == ListFrom(t, source, None, limit)
    ensures cursor != None && cursor != Some([]) && DecodeCursor(cursor.value) != None ==>
      ListEvents(t, source, cursor, limit) == ListFrom(t, source, DecodeCursor(cursor.value), limit)
  {
  }

  /** A page holds at most `limit` events. */
  lemma PageSize(t: Table, source: Option<Str>, start: Option<Pos>, limit: nat)
    requires Storable(t) && 1 <= limit
    ensures var r := ListFrom(t, source, start, limit);
      |r.events| <= limit && (r.nextCursor.Some? ==> |r.events| == limit)
  {
    ResponseShowsPage(t, source, start, limit);
    PageIsNextStretch(Matching(t, source), start, limit);
    assert |PositionsOf(ListFrom(t, source, start, limit).events)| == |ListFrom(t, source, start, limit).events|;
  }
}
