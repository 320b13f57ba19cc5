/** The favourites screen: the list of favourite events read from the cache,
    and the heart button that removes an event from that list when it is
    un-favourited. */
module FavoritesScreen {
  import opened Types
  import opened EventTable
  import opened TableProperties
  import opened DatabaseFacade

  /** `prev.filter(event => event.id !== eventId)`. */
  function WithoutId(es: seq<Event>, id: string): (r: seq<Event>)
    ensures forall e :: e in r <==> e in es && e.id != id
    ensures |r| <= |es|
    decreases |es|
  {
    if es == [] then []
    else if es[0].id == id then WithoutId(es[1..], id)
    else [es[0]] + WithoutId(es[1..], id)
  }

  /** The ids of a list of events follow the query order of table t. */
  ghost predicate InQueryOrder(t: Table, es: seq<Event>) {
    forall i, j :: 0 <= i < j < |es| ==> Before(t, es[i].id, es[j].id)
  }

  /** Past the head, a consed sequence is its tail shifted by one. */
  lemma ConsIndex(x: Event, s: seq<Event>, k: int)
    requires 0 < k <= |s|
    ensures ([x] + s)[k] == s[k - 1]
  {
  }

  /** A relation from every event to each later one also holds in the tail. */
  lemma TailPairs(es: seq<Event>, before: (Event, Event) -> bool)
    requires es != []
    requires forall i, j :: 0 <= i < j < |es| ==> before(es[i], es[j])
    ensures forall i, j :: 0 <= i < j < |es[1..]| ==> before(es[1..][i], es[1..][j])
  {
    var tail := es[1..];
    forall i, j | 0 <= i < j < |tail| ensures before(tail[i], tail[j]) {
      assert tail[i] == es[i + 1] && tail[j] == es[j + 1];
    }
  }

  /** The head relates to every event the filter keeps from the tail. */
  lemma HeadBeforeKept(es: seq<Event>, id: string, before: (Event, Event) -> bool)
    requires es != []
    requires forall i, j :: 0 <= i < j < |es| ==> before(es[i], es[j])
    ensures forall e :: e in WithoutId(es[1..], id) ==> before(es[0], e)
  {
    var tail := es[1..];
    forall e | e in WithoutId(tail, id) ensures before(es[0], e) {
      var k :| 0 <= k < |tail| && tail[k] == e;
      assert es[k + 1] == e;
    }
  }

  /** `filter` keeps the relative order of what stays: a relation that holds
      from every event to each later one still does after filtering. */
  lemma {:induction false} WithoutIdKeepsPairs(es: seq<Event>, id: string, before: (Event, Event) -> bool)
    requires forall i, j :: 0 <= i < j < |es| ==> before(es[i], es[j])
    ensures forall i, j :: 0 <= i < j < |WithoutId(es, id)| ==> before(WithoutId(es, id)[i], WithoutId(es, id)[j])
    decreases |es|
  {
    if es != [] {
      TailPairs(es, before);
      WithoutIdKeepsPairs(es[1..], id, before);
      var r1 := WithoutId(es[1..], id);
      if es[0].id != id {
        HeadBeforeKept(es, id, before);
        var r := WithoutId(es, id);
        assert r == [es[0]] + r1;
        forall i, j | 0 <= i < j < |r| ensures before(r[i], r[j]) {
          ConsIndex(es[0], r1, j);
          if i == 0 {
            assert r1[j - 1] in r1;
          } else {
            ConsIndex(es[0], r1, i);
          }
        }
      }
    }
  }

  /** Filtering keeps the query order of what stays. */
  lemma WithoutIdKeepsOrder(t: Table, es: seq<Event>, id: string)
    requires InQueryOrder(t, es)
    ensures InQueryOrder(t, WithoutId(es, id))
  {
    var before := (a: Event, b: Event) => Before(t, a.id, b.id);
    WithoutIdKeepsPairs(es, id, before);
  }

  /** A favourites list as the store gives it is in query order. */
  lemma FavoritesListInQueryOrder(t: Table)
    ensures InQueryOrder(t, FavoritesList(t))
  {
    var l := Listing(t, FavoriteIds(t));
    var es := FavoritesList(t);
    assert es == Summaries(t, l);
    forall i, j | 0 <= i < j < |es| ensures Before(t, es[i].id, es[j].id) {
      assert es[i].id == l[i] && es[j].id == l[j];
    }
  }

  /** Flipping a flag leaves the query order as it was. */
  lemma ToggleKeepsOrder(t: Table, id: string, a: string, b: string)
    requires id in t
    ensures Before(Toggle(t, id), a, b) <==> Before(t, a, b)
  {
  }

  /** The ids of a filtered list are the list's ids other than the removed one. */
  lemma IdsWithoutId(es: seq<Event>, id: string)
    ensures forall x :: x in Ids(WithoutId(es, id)) <==> x in Ids(es) && x != id
  {
    var r := WithoutId(es, id);
    var l, le := Ids(r), Ids(es);
    forall x | x in l ensures x in le && x != id {
      var j :| 0 <= j < |l| && l[j] == x;
      assert r[j] in es;
      var k :| 0 <= k < |es| && es[k] == r[j];
      assert le[k] == x;
    }
    forall x | x in le && x != id ensures x in l {
      var k :| 0 <= k < |le| && le[k] == x;
      assert es[k] in r;
      var j :| 0 <= j < |r| && r[j] == es[k];
      assert l[j] == x;
    }
  }

  /** Reading rows keeps their ids. */
  lemma IdsOfSummaries(t: Table, l: seq<string>)
    requires forall x :: x in l ==> x in t
    ensures Ids(Summaries(t, l)) == l
  {
  }

  /** The favourites list carries exactly the favourite ids. */
  lemma FavoritesListIds(t: Table)
    ensures forall x :: x in Ids(FavoritesList(t)) <==> x in FavoriteIds(t)
  {
    var lt := Listing(t, FavoriteIds(t));
    assert FavoritesList(t) == Summaries(t, lt);
    IdsOfSummaries(t, lt);
  }

  /** The ids left after filtering are exactly the favourites left after the toggle. */
  lemma WithoutIdHoldsRemainingFavorites(t: Table, id: string)
    requires FavoriteOf(t, id)
    ensures var l := Ids(WithoutId(FavoritesList(t), id));
      forall x :: x in l <==> x in FavoriteIds(Toggle(t, id))
  {
    IdsWithoutId(FavoritesList(t), id);
    FavoritesListIds(t);
    FavoriteIdsAfterToggle(t, id);
  }

  /** Un-favouriting removes exactly that id from the favourites. */
  lemma FavoriteIdsAfterToggle(t: Table, id: string)
    requires FavoriteOf(t, id)
    ensures forall x :: x in FavoriteIds(Toggle(t, id)) <==> x in FavoriteIds(t) && x != id
  {
  }

  /** The ids left after filtering are in the query order of the toggled table. */
  lemma WithoutIdOrderedAfterToggle(t: Table, id: string)
    requires FavoriteOf(t, id)
    ensures Ordered(Toggle(t, id), Ids(WithoutId(FavoritesList(t), id)))
  {
    var es := FavoritesList(t);
    FavoritesListInQueryOrder(t);
    WithoutIdKeepsOrder(t, es, id);
    var l := Ids(WithoutId(es, id));
    forall i, j | 0 <= i < j < |l| ensures Before(Toggle(t, id), l[i], l[j]) {
      ToggleKeepsOrder(t, id, l[i], l[j]);
    }
  }

  /** Reading rows ignores the favourite flag, so a toggle leaves every
      reading as it was. */
  lemma SummariesAfterToggle(t: Table, id: string, ids: seq<string>)
    requires id in t
    requires forall x :: x in ids ==> x in t
    ensures Summaries(Toggle(t, id), ids) == Summaries(t, ids)
  {
    var t' := Toggle(t, id);
    forall i | 0 <= i < |ids| ensures Summaries(t', ids)[i] == Summaries(t, ids)[i] {
      assert t'[ids[i]] == t[ids[i]].(isFavorite := t'[ids[i]].isFavorite);
    }
  }

  /** Events the store has read are the reading of their own ids. */
  lemma ReadBack(t: Table, r: seq<Event>)
    requires forall e :: e in r ==> e.id in t && e == SummaryOf(e.id, t[e.id])
    ensures forall x :: x in Ids(r) ==> x in t
    ensures Summaries(t, Ids(r)) == r
  {
    var l := Ids(r);
    forall x | x in l ensures x in t {
      var k :| 0 <= k < |l| && l[k] == x;
      assert r[k] in r;
    }
    forall i | 0 <= i < |r| ensures Summaries(t, l)[i] == r[i] {
      assert r[i] in r;
    }
  }

  /** Removing an un-favourited event from the shown list gives exactly the
      list a fresh `getFavoriteEvents` would return after the toggle. */
  lemma UnfavoriteMatchesReload(t: Table, id: string)
    requires FavoriteOf(t, id)
    ensures WithoutId(FavoritesList(t), id) == FavoritesList(Toggle(t, id))
  {
    var t' := Toggle(t, id);
    var r := WithoutId(FavoritesList(t), id);
    var l := Ids(r);
    WithoutIdHoldsRemainingFavorites(t, id);
    WithoutIdOrderedAfterToggle(t, id);
    ListingUnique(t', FavoriteIds(t'), l);
    ReadBack(t, r);
    SummariesAfterToggle(t, id, l);
  }

  class FavoritesScreen {
    var favoriteEvents: seq<Event>
    var loading: bool
    var refreshing: bool
    var error: Option<string>
    const service: DatabaseService

    constructor (service: DatabaseService)
      ensures this.service == service
      ensures favoriteEvents == [] && loading && !refreshing && error == None
    {
      this.service := service;
      favoriteEvents := [];
      loading := true;
      refreshing := false;
      error := None;
    }

    /** `loadFavoriteEvents(isRefresh)`: the facade's favourites replace the
        list. The facade never fails, so no error is ever shown, and both
        spinners are off when it returns. */
    method LoadFavoriteEvents(isRefresh: bool)
      modifies this
      ensures favoriteEvents == if service.store.isOpen then FavoritesList(service.store.events) else []
      ensures forall e :: e in favoriteEvents ==> FavoriteOf(service.store.events, e.id)
      ensures !loading && !refreshing && error == None
    {
      if isRefresh {
        refreshing := true;
        error := None;
      } else {
        loading := true;
        error := None;
      }
      favoriteEvents := service.GetFavoriteEvents();
      loading := false;
      refreshing := false;
    }

    /** `refreshFavoriteEvents`: a reload through the pull-to-refresh path. */
    method RefreshFavoriteEvents()
      modifies this
      ensures favoriteEvents == if service.store.isOpen then FavoritesList(service.store.events) else []
      ensures !loading && !refreshing && error == None
    {
      LoadFavoriteEvents(true);
    }

    /** `handleFavoriteToggle(eventId)`: flip the flag in the store; when the
        event is no longer a favourite, drop it from the list. */
    method HandleFavoriteToggle(id: string)
      modifies this, service.store
      ensures service.store.isOpen == old(service.store.isOpen)
      ensures service.store.events ==
        if old(service.store.isOpen) && id in old(service.store.events)
        then Toggle(old(service.store.events), id) else old(service.store.events)
      ensures service.store.isOpen && FavoriteOf(service.store.events, id) ==> favoriteEvents == old(favoriteEvents)
      ensures !(service.store.isOpen && FavoriteOf(service.store.events, id)) ==>
        favoriteEvents == WithoutId(old(favoriteEvents), id)
      ensures loading == old(loading) && refreshing == old(refreshing) && error == old(error)
      ensures service.store.isOpen && old(favoriteEvents) == FavoritesList(old(service.store.events)) ==>
        favoriteEvents == FavoritesList(service.store.events) || FavoriteOf(service.store.events, id)
    {
      var favorite := service.ToggleFavorite(id);
      if !favorite {
        favoriteEvents := WithoutId(favoriteEvents, id);
        if service.store.isOpen && old(favoriteEvents) == FavoritesList(old(service.store.events)) {
          if FavoriteOf(old(service.store.events), id) {
            UnfavoriteMatchesReload(old(service.store.events), id);
          } else {
            WithoutIdAbsent(old(favoriteEvents), id, old(service.store.events));
          }
        }
      }
    }
  }

  /** Filtering out an id that no listed favourite carries changes nothing. */
  lemma {:induction false} WithoutIdAbsent(es: seq<Event>, id: string, t: Table)
    requires forall e :: e in es ==> FavoriteOf(t, e.id)
    requires !FavoriteOf(t, id)
    ensures WithoutId(es, id) == es
    decreases |es|
  {
    if es != [] {
      assert es[0] in es;
      assert forall e :: e in es[1..] ==> e in es;
      WithoutIdAbsent(es[1..], id, t);
      HeadTail(es);
    }
  }
}
