/** What the cache's statements guarantee over whole sequences of calls: how a
    batch of upserts leaves the table, that the favourite flag survives every
    sync, and how the pages of a query fit together. */
module TableProperties {
  import opened Types
  import opened Paging
  import opened EventTable

  // ---------------------------------------------------------------------------
  // saveEvents over a whole batch

  /** Some event of the batch carries the id. */
  predicate Mentions(es: seq<Event>, id: string) {
    exists i :: 0 <= i < |es| && es[i].id == id
  }

  /** Position i holds the last event of the batch that carries its id. */
  predicate IsLastWith(es: seq<Event>, i: int) {
    0 <= i < |es| && forall j :: i < j < |es| ==> es[j].id != es[i].id
  }

  /** The position of the last event of the batch with the given id. */
  function LastIndex(es: seq<Event>, id: string): (i: int)
    requires Mentions(es, id)
    ensures IsLastWith(es, i) && es[i].id == id
    decreases |es|
  {
    var n := |es|;
    if es[n - 1].id == id then n - 1
    else
      var init := es[..n - 1];
      assert Mentions(init, id) by {
        var k :| 0 <= k < n && es[k].id == id;
        assert init[k] == es[k];
      }
      var i := LastIndex(init, id);
      assert init[i] == es[i];
      i
  }

  lemma MentionsInit(es: seq<Event>, id: string)
    requires es != []
    ensures Mentions(es, id) <==> Mentions(es[..|es| - 1], id) || es[|es| - 1].id == id
  {
    var init := es[..|es| - 1];
    if Mentions(es, id) {
      var i :| 0 <= i < |es| && es[i].id == id;
      if i < |es| - 1 {
        assert init[i] == es[i];
      }
    }
    if Mentions(init, id) {
      var i :| 0 <= i < |init| && init[i].id == id;
      assert es[i] == init[i];
    }
  }

  /** After a batch the table holds the rows it had plus one per id of the batch. */
  lemma {:induction false} UpsertAllKeys(t: Table, es: seq<Event>, now: int)
    ensures forall id :: id in UpsertAll(t, es, now) <==> id in t || Mentions(es, id)
    decreases |es|
  {
    if es != [] {
      UpsertAllKeys(t, es[..|es| - 1], now);
      forall id ensures Mentions(es, id) <==> Mentions(es[..|es| - 1], id) || es[|es| - 1].id == id {
        MentionsInit(es, id);
      }
    }
  }

  /** A batch of upserts never changes any id's favourite flag. */
  lemma {:induction false} UpsertAllKeepsFavorites(t: Table, es: seq<Event>, now: int)
    ensures forall id :: FavoriteOf(UpsertAll(t, es, now), id) <==> FavoriteOf(t, id)
    decreases |es|
  {
    if es != [] {
      UpsertAllKeepsFavorites(t, es[..|es| - 1], now);
    }
  }

  /** A row whose id the batch does not mention is left exactly as it was. */
  lemma {:induction false} UpsertAllUntouched(t: Table, es: seq<Event>, now: int, id: string)
    requires id in t && !Mentions(es, id)
    ensures id in UpsertAll(t, es, now) && UpsertAll(t, es, now)[id] == t[id]
    decreases |es|
  {
    if es != [] {
      MentionsInit(es, id);
      UpsertAllUntouched(t, es[..|es| - 1], now, id);
    }
  }

  /** The row of an id the batch mentions is the summary row of the LAST event
      with that id: its favourite flag is the one the table had, it is stamped
      with now, and its detail columns are cleared, so reading its details gives
      the summary with '', '', [], 0 and 0. */
  lemma {:induction false} UpsertAllLast(t: Table, es: seq<Event>, now: int, i: int)
    requires IsLastWith(es, i)
    ensures es[i].id in UpsertAll(t, es, now)
    ensures UpsertAll(t, es, now)[es[i].id] == SummaryRow(es[i], FavoriteOf(t, es[i].id), now)
    ensures DetailsOf(es[i].id, UpsertAll(t, es, now)[es[i].id]) == EventDetails(es[i], "", "", [], 0, 0)
    decreases |es|
  {
    var n := |es|;
    var init := es[..n - 1];
    UpsertAllKeepsFavorites(t, init, now);
    if i < n - 1 {
      assert IsLastWith(init, i) by {
        forall j | i < j < |init| ensures init[j].id != init[i].id {
          assert init[j] == es[j] && init[i] == es[i];
        }
      }
      UpsertAllLast(t, init, now, i);
      assert init[i] == es[i];
    }
  }

  /** Saving the same batch twice leaves the table as saving it once at the
      later time. */
  lemma UpsertAllIdempotent(t: Table, es: seq<Event>, n1: int, n2: int)
    ensures UpsertAll(UpsertAll(t, es, n1), es, n2) == UpsertAll(t, es, n2)
  {
    var m := UpsertAll(t, es, n1);
    var a := UpsertAll(t, es, n2);
    var b := UpsertAll(m, es, n2);
    forall id ensures (id in b <==> id in a) && (id in a ==> b[id] == a[id]) {
      UpsertAllIdempotentAt(t, es, n1, n2, id);
    }
    assert a.Keys == b.Keys;
  }

  /** One id is present after one upsert exactly when it is after two, with
      the same row. */
  lemma UpsertAllIdempotentAt(t: Table, es: seq<Event>, n1: int, n2: int, id: string)
    ensures var m := UpsertAll(t, es, n1);
      (id in UpsertAll(m, es, n2) <==> id in UpsertAll(t, es, n2)) &&
      (id in UpsertAll(t, es, n2) ==> UpsertAll(m, es, n2)[id] == UpsertAll(t, es, n2)[id])
  {
    var m := UpsertAll(t, es, n1);
    UpsertAllKeys(t, es, n1);
    UpsertAllKeys(t, es, n2);
    UpsertAllKeys(m, es, n2);
    UpsertAllKeepsFavorites(t, es, n1);
    if Mentions(es, id) {
      var i := LastIndex(es, id);
      UpsertAllLast(t, es, n2, i);
      UpsertAllLast(m, es, n2, i);
    } else if id in t {
      UpsertAllUntouched(t, es, n2, id);
      UpsertAllUntouched(t, es, n1, id);
      UpsertAllUntouched(m, es, n2, id);
    }
  }

  // ---------------------------------------------------------------------------
  // Favourites and eviction

  /** Toggling a favourite twice restores the table. */
  lemma ToggleTwice(t: Table, id: string)
    requires id in t
    ensures Toggle(Toggle(t, id), id) == t
  {
  }

  /** Clearing old cache entries a second time at the same instant removes nothing more. */
  lemma EvictIdempotent(t: Table, now: int)
    ensures Evict(Evict(t, now), now) == Evict(t, now)
  {
  }

  /** A favourite row is never evicted, however old. */
  lemma EvictKeepsFavorites(t: Table, now: int, id: string)
    requires FavoriteOf(t, id)
    ensures FavoriteOf(Evict(t, now), id) && Evict(t, now)[id] == t[id]
  {
  }

  /** The statements that change the table, as the store's write operations
      perform them on an open database. */
  datatype StoreOp =
    | SaveAll(events: seq<Event>, at: int)
    | SaveDetails(details: EventDetails, at: int)
    | ToggleOp(id: string)
    | ClearOld(at: int)
    | ClearAll

  /** One write; toggling an unknown id fails and changes nothing. */
  function Apply(t: Table, op: StoreOp): Table {
    match op
    case SaveAll(es, now) => UpsertAll(t, es, now)
    case SaveDetails(d, now) => UpsertDetails(t, d, now)
    case ToggleOp(id) => if id in t then Toggle(t, id) else t
    case ClearOld(now) => Evict(t, now)
    case ClearAll => map[]
  }

  function ApplyAll(t: Table, ops: seq<StoreOp>): Table
    decreases |ops|
  {
    if ops == [] then t else ApplyAll(Apply(t, ops[0]), ops[1..])
  }

  /** Only the user decides favourites: across any sequence of syncs, detail
      saves, evictions and toggles of other ids, an id's favourite flag keeps
      its value. */
  lemma {:induction false} FavoriteSurvives(t: Table, ops: seq<StoreOp>, id: string)
    requires forall k :: 0 <= k < |ops| ==> ops[k] != ToggleOp(id) && ops[k] != ClearAll
    ensures FavoriteOf(ApplyAll(t, ops), id) <==> FavoriteOf(t, id)
    decreases |ops|
  {
    if ops != [] {
      var t1 := Apply(t, ops[0]);
      assert FavoriteOf(t1, id) <==> FavoriteOf(t, id) by {
        match ops[0]
        case SaveAll(es, now) => UpsertAllKeepsFavorites(t, es, now);
        case SaveDetails(d, now) =>
        case ToggleOp(other) =>
        case ClearOld(now) =>
      }
      assert forall k :: 0 <= k < |ops[1..]| ==> ops[1..][k] == ops[k + 1];
      FavoriteSurvives(t1, ops[1..], id);
    }
  }

  // ---------------------------------------------------------------------------
  // Query pages

  /** A listing names each row once. */
  lemma ListingDistinct(t: Table, ids: set<string>)
    requires ids <= t.Keys
    ensures Distinct(Listing(t, ids))
  {
    var l := Listing(t, ids);
    forall i, j | 0 <= i < |l| && 0 <= j < |l| && i != j ensures l[i] != l[j] {
      BeforeIrreflexive(t, l[i]);
    }
  }

  /** The ids a page shows: its cut of the query's listing. */
  ghost function PageIds(t: Table, page: int, category: CategoryFilter, query: string): (ids: seq<string>)
    ensures forall id :: id in ids ==> id in t
  {
    CacheSlice(Listing(t, MatchingIds(t, category, query)), page)
  }

  lemma PageEvents(t: Table, page: int, category: CategoryFilter, query: string)
    ensures CachePage(t, page, category, query).events == Summaries(t, PageIds(t, page, category, query))
  {
  }

  /** Each event is the summary of the id at its position. */
  lemma SummaryIds(t: Table, ids: seq<string>, e: Event)
    requires forall id :: id in ids ==> id in t
    requires e in Summaries(t, ids)
    ensures e.id in ids
  {
    var es := Summaries(t, ids);
    var i :| 0 <= i < |es| && es[i] == e;
    assert ids[i] == e.id;
  }

  lemma SliceOrdered(t: Table, l: seq<string>, page: int)
    requires Ordered(t, l)
    ensures Ordered(t, CacheSlice(l, page))
  {
    var slice := CacheSlice(l, page);
    var o := Max((page - 1) * PageSize, 0);
    forall i, j | 0 <= i < j < |slice| ensures Before(t, slice[i], slice[j]) {
      assert slice[i] == l[o + i] && slice[j] == l[o + j];
    }
  }

  /** Summaries keep the order of the ids they are built from. */
  lemma SummariesOrdered(t: Table, ids: seq<string>)
    requires forall id :: id in ids ==> id in t
    requires Ordered(t, ids)
    ensures var es := Summaries(t, ids);
      forall i, j :: 0 <= i < j < |es| ==> Before(t, es[i].id, es[j].id)
  {
  }

  /** The events of a page come newest first (`cached_at DESC`, ties by id). */
  lemma CachePageOrdered(t: Table, page: int, category: CategoryFilter, query: string)
    ensures var es := CachePage(t, page, category, query).events;
      forall i, j :: 0 <= i < j < |es| ==> Before(t, es[i].id, es[j].id)
  {
    var l := Listing(t, MatchingIds(t, category, query));
    SliceOrdered(t, l, page);
    PageEvents(t, page, category, query);
    SummariesOrdered(t, PageIds(t, page, category, query));
  }

  /** The favourites list comes newest first and holds every favourite row. */
  lemma FavoritesListOrderedAndComplete(t: Table)
    ensures var es := FavoritesList(t);
      forall i, j :: 0 <= i < j < |es| ==> Before(t, es[i].id, es[j].id)
    ensures forall id :: FavoriteOf(t, id) ==> exists i :: 0 <= i < |FavoritesList(t)| && FavoritesList(t)[i].id == id
  {
    var l := Listing(t, FavoriteIds(t));
    var es := FavoritesList(t);
    assert es == Summaries(t, l);
    forall id | FavoriteOf(t, id) ensures exists i :: 0 <= i < |es| && es[i].id == id {
      var i :| 0 <= i < |l| && l[i] == id;
      assert es[i].id == id;
    }
  }

  /** `hasMore` on a page says exactly that the next page has events. */
  lemma HasMoreIffNextPage(t: Table, page: int, category: CategoryFilter, query: string)
    requires page >= 1
    ensures CachePage(t, page, category, query).hasMore <==> CachePage(t, page + 1, category, query).events != []
  {
    var l := Listing(t, MatchingIds(t, category, query));
    HasMoreIffNextPageNonEmpty(l, page);
    assert |CachePage(t, page + 1, category, query).events| == |CacheSlice(l, page + 1)|;
  }

  /** Two different pages of the same query share no event. */
  lemma PagesShareNoEvent(t: Table, p: int, q: int, category: CategoryFilter, query: string, e: Event)
    requires 1 <= p < q
    ensures !(e in CachePage(t, p, category, query).events && e in CachePage(t, q, category, query).events)
  {
    var l := Listing(t, MatchingIds(t, category, query));
    ListingDistinct(t, MatchingIds(t, category, query));
    PagesDisjoint(l, p, q, e.id);
    PageEvents(t, p, category, query);
    PageEvents(t, q, category, query);
    if e in CachePage(t, p, category, query).events {
      SummaryIds(t, PageIds(t, p, category, query), e);
    }
    if e in CachePage(t, q, category, query).events {
      SummaryIds(t, PageIds(t, q, category, query), e);
    }
  }

  /** The events of pages 1..p of one query, in the order they were loaded. */
  ghost function PagesUpTo(t: Table, p: nat, category: CategoryFilter, query: string): seq<Event> {
    if p == 0 then [] else PagesUpTo(t, p - 1, category, query) + CachePage(t, p, category, query).events
  }

  lemma SummariesAppend(t: Table, a: seq<string>, b: seq<string>)
    requires forall id :: id in a + b ==> id in t
    ensures Summaries(t, a + b) == Summaries(t, a) + Summaries(t, b)
  {
    assert forall id :: id in a ==> id in a + b;
    assert forall id :: id in b ==> id in a + b;
    var s, sa, sb := Summaries(t, a + b), Summaries(t, a), Summaries(t, b);
    forall k | 0 <= k < |s| ensures s[k] == (sa + sb)[k] {
      if k >= |a| {
        assert (a + b)[k] == b[k - |a|];
      }
    }
  }

  /** Loading pages 1..p of an unchanged table yields the first p * 10
      matching rows, newest first, each once. */
  lemma {:induction false} PagesUpToArePrefix(t: Table, p: nat, category: CategoryFilter, query: string)
    ensures var l := Listing(t, MatchingIds(t, category, query));
      PagesUpTo(t, p, category, query) == Summaries(t, l[..Min(p * PageSize, |l|)])
  {
    var l := Listing(t, MatchingIds(t, category, query));
    if p > 0 {
      PagesUpToArePrefix(t, p - 1, category, query);
      PageEvents(t, p, category, query);
      PageIdsCut(t, p, category, query);
      var lo, hi := Min((p - 1) * PageSize, |l|), Min(p * PageSize, |l|);
      SummariesCut(t, l, lo, hi);
    }
  }

  /** The summaries of a prefix followed by those of the next cut are the
      summaries of the longer prefix. */
  lemma SummariesCut(t: Table, l: seq<string>, lo: int, hi: int)
    requires 0 <= lo <= hi <= |l|
    requires forall id :: id in l ==> id in t
    ensures Summaries(t, l[..lo]) + Summaries(t, l[lo..hi]) == Summaries(t, l[..hi])
  {
    assert l[..hi] == l[..lo] + l[lo..hi];
    SummariesAppend(t, l[..lo], l[lo..hi]);
  }

  /** Page p's ids are the listing's positions (p - 1) * 10 up to p * 10. */
  lemma PageIdsCut(t: Table, p: nat, category: CategoryFilter, query: string)
    requires p >= 1
    ensures var l := Listing(t, MatchingIds(t, category, query));
      PageIds(t, p, category, query) == l[Min((p - 1) * PageSize, |l|)..Min(p * PageSize, |l|)]
  {
    SlicesAgree(Listing(t, MatchingIds(t, category, query)), p);
  }

  /** The head of a sequence ordered by the query order is the first row of
      what it holds. */
  lemma OrderedHead(t: Table, ids: set<string>, l: seq<string>)
    requires Ordered(t, l) && l != []
    requires forall x :: x in l <==> x in ids
    ensures IsFirst(t, ids, l[0])
  {
    forall x | x in ids && x != l[0] ensures Before(t, l[0], x) {
      var j :| 0 <= j < |l| && l[j] == x;
    }
  }

  /** The tail of such a sequence is ordered and holds the rest. */
  lemma OrderedTail(t: Table, ids: set<string>, l: seq<string>)
    requires Ordered(t, l) && l != []
    requires forall x :: x in l <==> x in ids
    ensures Ordered(t, l[1..])
    ensures forall x :: x in l[1..] <==> x in ids - {l[0]}
  {
    var m, rest := l[0], l[1..];
    BeforeIrreflexive(t, m);
    forall x | x in rest ensures x in ids - {m} {
      var j :| 0 <= j < |rest| && rest[j] == x;
      assert Before(t, l[0], l[j + 1]);
    }
    forall x | x in ids - {m} ensures x in rest {
      var j :| 0 <= j < |l| && l[j] == x;
    }
    forall i, j | 0 <= i < j < |rest| ensures Before(t, rest[i], rest[j]) {
      assert rest[i] == l[i + 1] && rest[j] == l[j + 1];
    }
  }

  /** The query order is the only order of a set of rows: a sequence ordered
      by `cached_at DESC` (ties by id) that holds exactly the set is its listing. */
  lemma {:induction false} ListingUnique(t: Table, ids: set<string>, l: seq<string>)
    requires ids <= t.Keys
    requires Ordered(t, l)
    requires forall x :: x in l <==> x in ids
    ensures l == Listing(t, ids)
    decreases |ids|
  {
    if l == [] {
      assert forall x :: x !in ids;
      assert ids == {};
    } else {
      var m := l[0];
      OrderedHead(t, ids, l);
      ListingHead(t, ids, m);
      OrderedTail(t, ids, l);
      ListingUnique(t, ids - {m}, l[1..]);
      HeadTail(l);
    }
  }
}
