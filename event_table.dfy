/** The `events` table of the local SQLite cache, as a value: its rows, what each
    SQL statement of the cache does to it, and what each query reads from it. */
module EventTable {
  import opened Types
  import opened Paging
  import opened SqlLike

  /** One row of the `events` table, keyed by the event id. The summary
      columns are NOT NULL; the detail columns hold NULL (None) until a detail
      fetch has written them. `is_favorite` is stored as 0/1. */
  datatype Row = Row(
    title: string,
    category: Category,
    startsAt: string,
    city: string,
    price: int,
    thumbnail: string,
    description: Option<string>,
    venue: Option<string>,
    speakers: Option<seq<string>>,
    capacity: Option<int>,
    remaining: Option<int>,
    isFavorite: bool,
    cachedAt: int)

  type Table = map<string, Row>

  /** Seven days in milliseconds: rows older than this are stale. */
  const RetentionMs: int := 7 * 24 * 60 * 60 * 1000

  // ---------------------------------------------------------------------------
  // Row projections

  /** The summary a query builds from a row (the columns it copies). */
  function SummaryOf(id: string, row: Row): (e: Event)
    ensures e.id == id && e.title == row.title && e.category == row.category
    ensures e.price == row.price && e.startsAt == row.startsAt
    ensures e.city == row.city && e.thumbnail == row.thumbnail
  {
    Event(id, row.title, row.category, row.startsAt, row.city, row.price, row.thumbnail)
  }

  /** The details `getEventById` builds from a row: NULL detail columns read as
      '', '', [], 0 and 0 (`row.x || default`; speakers go through a JSON round
      trip, which is the identity here). */
  function DetailsOf(id: string, row: Row): (d: EventDetails)
    ensures d.event == SummaryOf(id, row)
    ensures d.description == row.description.GetOr("") && d.venue == row.venue.GetOr("")
    ensures d.speakers == row.speakers.GetOr([])
    ensures d.capacity == row.capacity.GetOr(0) && d.remaining == row.remaining.GetOr(0)
  {
    EventDetails(SummaryOf(id, row),
      row.description.GetOr(""), row.venue.GetOr(""), row.speakers.GetOr([]),
      row.capacity.GetOr(0), row.remaining.GetOr(0))
  }

  /** The row `INSERT OR REPLACE` writes from a summary: only the summary
      columns, `is_favorite` and `cached_at` are given, so every detail column
      of the replaced row becomes NULL. */
  function SummaryRow(e: Event, favorite: bool, now: int): (row: Row)
    ensures SummaryOf(e.id, row) == e
    ensures row.description.None? && row.venue.None? && row.speakers.None?
    ensures row.capacity.None? && row.remaining.None?
    ensures row.isFavorite == favorite && row.cachedAt == now
  {
    Row(e.title, e.category, e.startsAt, e.city, e.price, e.thumbnail,
      None, None, None, None, None, favorite, now)
  }

  /** The row `INSERT OR REPLACE` writes from full details. */
  function DetailRow(d: EventDetails, favorite: bool, now: int): (row: Row)
    ensures DetailsOf(d.event.id, row) == d
    ensures row.isFavorite == favorite && row.cachedAt == now
  {
    Row(d.event.title, d.event.category, d.event.startsAt, d.event.city, d.event.price,
      d.event.thumbnail, Some(d.description), Some(d.venue), Some(d.speakers),
      Some(d.capacity), Some(d.remaining), favorite, now)
  }

  /** `SELECT is_favorite ... = 1`, with a missing row reading as false. */
  predicate FavoriteOf(t: Table, id: string) {
    id in t && t[id].isFavorite
  }

  // ---------------------------------------------------------------------------
  // Writes

  /** One upsert of `saveEvents`: the favourite flag the row had (false for a
      new id) is carried over, `cached_at` becomes now. */
  function Upsert(t: Table, e: Event, now: int): (r: Table)
    ensures r.Keys == t.Keys + {e.id}
    ensures r[e.id] == SummaryRow(e, FavoriteOf(t, e.id), now)
    ensures forall id :: id in t && id != e.id ==> r[id] == t[id]
  {
    t[e.id := SummaryRow(e, FavoriteOf(t, e.id), now)]
  }

  /** The upserts of `saveEvents` over the whole list, in order. */
  function UpsertAll(t: Table, es: seq<Event>, now: int): Table
    decreases |es|
  {
    if es == [] then t else Upsert(UpsertAll(t, es[..|es| - 1], now), es[|es| - 1], now)
  }

  /** The upsert of `saveEventDetails`: all columns written, favourite kept. */
  function UpsertDetails(t: Table, d: EventDetails, now: int): (r: Table)
    ensures r.Keys == t.Keys + {d.event.id}
    ensures r[d.event.id] == DetailRow(d, FavoriteOf(t, d.event.id), now)
    ensures forall id :: id in t && id != d.event.id ==> r[id] == t[id]
  {
    t[d.event.id := DetailRow(d, FavoriteOf(t, d.event.id), now)]
  }

  /** `UPDATE events SET is_favorite = ? WHERE id = ?` with the flipped flag. */
  function Toggle(t: Table, id: string): (r: Table)
    requires id in t
    ensures r.Keys == t.Keys
    ensures r[id].isFavorite == !t[id].isFavorite
    ensures r[id] == t[id].(isFavorite := r[id].isFavorite)
    ensures forall k :: k in t && k != id ==> r[k] == t[k]
  {
    t[id := t[id].(isFavorite := !t[id].isFavorite)]
  }

  /** The condition of `DELETE FROM events WHERE cached_at < ? AND is_favorite = 0`. */
  predicate IsStale(row: Row, now: int) {
    row.cachedAt < now - RetentionMs && !row.isFavorite
  }

  /** `clearOldCache`: exactly the stale rows go, every other row stays as it was. */
  function Evict(t: Table, now: int): (r: Table)
    ensures forall id :: id in r <==> id in t && !IsStale(t[id], now)
    ensures forall id :: id in r ==> r[id] == t[id]
  {
    map id | id in t && !IsStale(t[id], now) :: t[id]
  }

  // ---------------------------------------------------------------------------
  // Queries

  /** The WHERE clause of `getEvents`: category equality unless 'All', and
      `title LIKE %query%` unless the query is empty. */
  predicate RowMatches(row: Row, category: CategoryFilter, query: string) {
    CategoryMatches(category, row.category) && (query == [] || TitleLike(row.title, query))
  }

  function MatchingIds(t: Table, category: CategoryFilter, query: string): (ids: set<string>)
    ensures ids <= t.Keys
    ensures forall id :: id in ids <==> id in t && RowMatches(t[id], category, query)
  {
    set id | id in t && RowMatches(t[id], category, query)
  }

  function FavoriteIds(t: Table): (ids: set<string>)
    ensures ids <= t.Keys
    ensures forall id :: id in ids <==> FavoriteOf(t, id)
  {
    set id | id in t && t[id].isFavorite
  }

  /** Code-point lexicographic order on ids. SQL leaves rows with equal
      `cached_at` unordered; the model breaks such ties by id so that a query's
      answer is determined by the table. */
  predicate IdLess(a: string, b: string)
    decreases |a|
  {
    b != [] && (a == [] || a[0] < b[0] || (a[0] == b[0] && IdLess(a[1..], b[1..])))
  }

  /** Row a comes before row b in `ORDER BY cached_at DESC`. */
  predicate Before(t: Table, a: string, b: string) {
    a in t && b in t &&
    (t[a].cachedAt > t[b].cachedAt || (t[a].cachedAt == t[b].cachedAt && IdLess(a, b)))
  }

  ghost predicate Ordered(t: Table, l: seq<string>) {
    forall i, j :: 0 <= i < j < |l| ==> Before(t, l[i], l[j])
  }

  predicate IsFirst(t: Table, ids: set<string>, m: string) {
    m in ids && forall x :: x in ids && x != m ==> Before(t, m, x)
  }

  lemma {:induction false} IdLessIrreflexive(a: string)
    ensures !IdLess(a, a)
    decreases |a|
  {
    if a != [] {
      IdLessIrreflexive(a[1..]);
    }
  }

  lemma {:induction false} IdLessTransitive(a: string, b: string, c: string)
    requires IdLess(a, b) && IdLess(b, c)
    ensures IdLess(a, c)
    decreases |a|
  {
    if a != [] && a[0] == b[0] && b[0] == c[0] {
      IdLessTransitive(a[1..], b[1..], c[1..]);
    }
  }

  lemma {:induction false} IdLessTotal(a: string, b: string)
    requires a != b
    ensures IdLess(a, b) || IdLess(b, a)
    decreases |a|
  {
    if a != [] && b != [] && a[0] == b[0] {
      assert a == [a[0]] + a[1..] && b == [b[0]] + b[1..];
      IdLessTotal(a[1..], b[1..]);
    }
  }

  lemma BeforeIrreflexive(t: Table, a: string)
    ensures !Before(t, a, a)
  {
    IdLessIrreflexive(a);
  }

  lemma BeforeTransitive(t: Table, a: string, b: string, c: string)
    requires Before(t, a, b) && Before(t, b, c)
    ensures Before(t, a, c)
  {
    if IdLess(a, b) && IdLess(b, c) {
      IdLessTransitive(a, b, c);
    }
  }

  lemma BeforeTotal(t: Table, a: string, b: string)
    requires a in t && b in t && a != b
    ensures Before(t, a, b) || Before(t, b, a)
  {
    IdLessTotal(a, b);
  }

  /** Every non-empty set of rows has a first row in query order. */
  lemma {:induction false} FirstExists(t: Table, ids: set<string>)
    requires ids <= t.Keys && ids != {}
    ensures exists m :: IsFirst(t, ids, m)
    decreases |ids|
  {
    var x :| x in ids;
    var rest := ids - {x};
    if rest == {} {
      assert ids == {x};
      assert IsFirst(t, ids, x);
    } else {
      FirstExists(t, rest);
      var m :| IsFirst(t, rest, m);
      BeforeTotal(t, x, m);
      if Before(t, m, x) {
        assert IsFirst(t, ids, m);
      } else {
        forall y | y in ids && y != x ensures Before(t, x, y) {
          if y != m {
            BeforeTransitive(t, x, m, y);
          }
        }
        assert IsFirst(t, ids, x);
      }
    }
  }

  /** The first row of a set is unique. */
  lemma FirstUnique(t: Table, ids: set<string>, m1: string, m2: string)
    requires IsFirst(t, ids, m1) && IsFirst(t, ids, m2)
    ensures m1 == m2
  {
    if m1 != m2 {
      BeforeTransitive(t, m1, m2, m1);
      BeforeIrreflexive(t, m1);
    }
  }

  /** The ids of a set of rows in `ORDER BY cached_at DESC` order (ties by id). */
  ghost function Listing(t: Table, ids: set<string>): (l: seq<string>)
    requires ids <= t.Keys
    ensures |l| == |ids|
    ensures forall x :: x in l <==> x in ids
    ensures Ordered(t, l)
    decreases |ids|
  {
    if ids == {} then []
    else
      FirstExists(t, ids);
      var m :| IsFirst(t, ids, m);
      [m] + Listing(t, ids - {m})
  }

  /** One step of selecting rows first to last: the rows taken so far followed
      by the listing of the rest is still the whole listing. */
  lemma ListingStep(t: Table, ids: set<string>, rest: set<string>, taken: seq<string>, m: string)
    requires rest <= ids <= t.Keys
    requires taken + Listing(t, rest) == Listing(t, ids)
    requires IsFirst(t, rest, m)
    ensures (taken + [m]) + Listing(t, rest - {m}) == Listing(t, ids)
  {
    ListingHead(t, rest, m);
    AppendAssociates(taken, [m], Listing(t, rest - {m}));
  }

  /** A listing starts with the first row of the set and goes on with the rest. */
  lemma ListingHead(t: Table, ids: set<string>, m: string)
    requires ids <= t.Keys
    requires IsFirst(t, ids, m)
    ensures Listing(t, ids) == [m] + Listing(t, ids - {m})
  {
    var l := Listing(t, ids);
    assert IsFirst(t, ids, l[0]) by {
      forall x | x in ids && x != l[0] ensures Before(t, l[0], x) {
        var j :| 0 <= j < |l| && l[j] == x;
      }
    }
    FirstUnique(t, ids, m, l[0]);
  }

  function Summaries(t: Table, ids: seq<string>): (es: seq<Event>)
    requires forall id :: id in ids ==> id in t
    ensures |es| == |ids|
    ensures forall i :: 0 <= i < |ids| ==> es[i] == SummaryOf(ids[i], t[ids[i]])
  {
    seq(|ids|, i requires 0 <= i < |ids| => SummaryOf(ids[i], t[ids[i]]))
  }

  /** The answer of `getEvents(page, category, query)`: the matching rows in
      query order, cut at `LIMIT 10 OFFSET (page - 1) * 10`, with the number of
      matching rows and `offset + 10 < totalCount` as `hasMore`. */
  ghost function CachePage(t: Table, page: int, category: CategoryFilter, query: string): (p: EventPage)
    ensures p.totalCount == |MatchingIds(t, category, query)|
    ensures |p.events| <= PageSize
    ensures p.hasMore <==> (page - 1) * PageSize + PageSize < p.totalCount
    ensures forall e :: e in p.events ==> e.id in t && RowMatches(t[e.id], category, query) && e == SummaryOf(e.id, t[e.id])
  {
    var ids := MatchingIds(t, category, query);
    var l := Listing(t, ids);
    var slice := CacheSlice(l, page);
    var events := Summaries(t, slice);
    assert forall e :: e in events ==> exists i :: 0 <= i < |slice| && e == SummaryOf(slice[i], t[slice[i]]);
    EventPage(events, (page - 1) * PageSize + PageSize < |ids|, |ids|)
  }

  /** The answer of `getFavoriteEvents`: the favourite rows in query order. */
  ghost function FavoritesList(t: Table): (es: seq<Event>)
    ensures |es| == |FavoriteIds(t)|
    ensures forall e :: e in es ==> FavoriteOf(t, e.id) && e == SummaryOf(e.id, t[e.id])
  {
    var l := Listing(t, FavoriteIds(t));
    var es := Summaries(t, l);
    assert forall e :: e in es ==> exists i :: 0 <= i < |l| && e == SummaryOf(l[i], t[l[i]]);
    es
  }
}
