/** The dashboard: the paged, searchable event list. Each load asks the API
    first, caches what it gets and, when the API fails, shows the cache's
    page instead; the favourite hearts of the loaded events are then read from
    the store. */
module DashboardScreen {
  import opened Types
  import opened Paging
  import opened EventTable
  import opened TableProperties
  import opened DatabaseFacade
  import MockApi

  /** The hearts `loadFavoriteStatuses(ids)` reads: each id's flag as the
      facade's `isFavorite` answers it (false when the store is closed). */
  function StatusesOf(open: bool, t: Table, ids: seq<string>): (m: map<string, bool>)
    ensures forall id :: id in m <==> id in ids
    ensures forall id :: id in m ==> (m[id] <==> open && FavoriteOf(t, id))
  {
    map id | id in ids :: open && FavoriteOf(t, id)
  }

  /** Reading one more id adds that id's heart. */
  lemma StatusesOfSnoc(open: bool, t: Table, ids: seq<string>, id: string)
    ensures StatusesOf(open, t, ids + [id]) == StatusesOf(open, t, ids)[id := open && FavoriteOf(t, id)]
  {
  }

  /** The list after a load: a first page or a refresh replaces it, any
      other page is appended. */
  function NextEvents(prev: seq<Event>, loaded: seq<Event>, page: int, isRefresh: bool): (r: seq<Event>)
    ensures page == 1 || isRefresh ==> r == loaded
    ensures page != 1 && !isRefresh ==> |r| == |prev| + |loaded| && r[..|prev|] == prev && r[|prev|..] == loaded
  {
    if page == 1 || isRefresh then loaded else prev + loaded
  }

  /** Offline, loading pages 1, 2, ..., p one after the other from the cache
      shows the first p * 10 matching rows in query order. */
  lemma OfflinePagesAccumulate(t: Table, p: nat, category: CategoryFilter, query: string)
    requires p >= 1
    ensures var l := Listing(t, MatchingIds(t, category, query));
      NextEvents(PagesUpTo(t, p - 1, category, query), CachePage(t, p, category, query).events, p, false)
        == Summaries(t, l[..Min(p * PageSize, |l|)])
  {
    PagesUpToArePrefix(t, p, category, query);
  }

  /** Offline, appending the cache's page p + 1 to pages 1..p gives pages 1..p + 1. */
  lemma NextCachePage(t: Table, p: nat, category: CategoryFilter, query: string)
    requires p >= 1
    ensures NextEvents(PagesUpTo(t, p, category, query), CachePage(t, p + 1, category, query).events, p + 1, false)
      == PagesUpTo(t, p + 1, category, query)
  {
  }

  /** Online, loading pages 1, 2, ..., p one after the other from the API
      shows the first p * 10 events the API's filters select, in catalogue
      order. */
  lemma OnlinePagesAccumulate(catalogue: seq<Event>, p: nat, query: string, category: CategoryFilter)
    requires p >= 1
    ensures var r := MockApi.GetEvents(catalogue, p, query, category, true);
      var filtered := MockApi.Filtered(catalogue, query, category);
      r.Ok? &&
      NextEvents(MockApi.RemotePagesUpTo(catalogue, p - 1, query, category), r.value.events, p, false)
        == filtered[..Min(p * PageSize, |filtered|)]
  {
    MockApi.GetEventsPage(catalogue, p, query, category, true);
    MockApi.RemotePagesArePrefix(catalogue, p, query, category);
  }

  /** Caching a delivered page never changes a heart: the hearts read after
      the upsert are the favourite flags the rows had before it. */
  lemma SyncedHearts(m: map<string, bool>, open: bool, t: Table, es: seq<Event>, now: int)
    ensures var after := m + StatusesOf(open, if open then UpsertAll(t, es, now) else t, Ids(es));
      forall i :: 0 <= i < |es| ==>
        es[i].id in after && (after[es[i].id] <==> open && FavoriteOf(t, es[i].id))
  {
    UpsertAllKeepsFavorites(t, es, now);
    var ids := Ids(es);
    forall i | 0 <= i < |es| ensures es[i].id in ids {
      assert ids[i] == es[i].id;
    }
  }

  class Dashboard {
    var events: seq<Event>
    var loading: bool
    var refreshing: bool
    var loadingMore: bool
    var error: Option<string>
    var hasMore: bool
    var currentPage: int
    var favoriteStatuses: map<string, bool>
    /** `filters.query` and `filters.category`. */
    var query: string
    var category: CategoryFilter
    const service: DatabaseService

    constructor (service: DatabaseService)
      ensures this.service == service
      ensures events == [] && loading && !refreshing && !loadingMore && error == None
      ensures hasMore && currentPage == 1 && favoriteStatuses == map[]
      ensures query == "" && category == All
    {
      this.service := service;
      events := [];
      loading := true;
      refreshing := false;
      loadingMore := false;
      error := None;
      hasMore := true;
      currentPage := 1;
      favoriteStatuses := map[];
      query := "";
      category := All;
    }

    /** `loadFavoriteStatuses(eventIds)`: one `isFavorite` per id, merged
        over the hearts already known. */
    method LoadFavoriteStatuses(ids: seq<string>)
      modifies this
      ensures favoriteStatuses == old(favoriteStatuses) + StatusesOf(service.store.isOpen, service.store.events, ids)
      ensures events == old(events) && hasMore == old(hasMore) && currentPage == old(currentPage)
      ensures loading == old(loading) && refreshing == old(refreshing) && loadingMore == old(loadingMore)
      ensures error == old(error) && query == old(query) && category == old(category)
    {
      var statuses := ReadStatuses(ids);
      favoriteStatuses := favoriteStatuses + statuses;
    }

    /** The loop of `loadFavoriteStatuses`: the store's answer for each id,
        collected into `statuses`. */
    method ReadStatuses(ids: seq<string>) returns (statuses: map<string, bool>)
      ensures statuses == StatusesOf(service.store.isOpen, service.store.events, ids)
    {
      statuses := map[];
      var i := 0;
      while i < |ids|
        invariant 0 <= i <= |ids|
        invariant statuses == StatusesOf(service.store.isOpen, service.store.events, ids[..i])
      {
        var favorite := service.IsFavorite(ids[i]);
        StatusesOfSnoc(service.store.isOpen, service.store.events, ids[..i], ids[i]);
        assert ids[..i + 1] == ids[..i] + [ids[i]];
        statuses := statuses[ids[i] := favorite];
        i := i + 1;
      }
      assert ids[..|ids|] == ids;
    }

    /** The API branch of `loadEvents`: cache the delivered events, show
        them, read their hearts, take over `hasMore` and the page. */
    method ShowDelivered(response: EventsResponse, page: int, isRefresh: bool, now: int)
      modifies this, service.store
      ensures service.store.isOpen == old(service.store.isOpen)
      ensures service.store.events == (if old(service.store.isOpen)
        then UpsertAll(old(service.store.events), response.events, now) else old(service.store.events))
      ensures events == NextEvents(old(events), response.events, page, isRefresh)
      ensures hasMore == response.hasMore && currentPage == page
      ensures favoriteStatuses ==
        old(favoriteStatuses) + StatusesOf(service.store.isOpen, service.store.events, Ids(response.events))
      ensures forall i :: 0 <= i < |response.events| ==>
        (favoriteStatuses[response.events[i].id] <==>
         old(service.store.isOpen) && FavoriteOf(old(service.store.events), response.events[i].id))
      ensures loading == old(loading) && refreshing == old(refreshing) && loadingMore == old(loadingMore)
      ensures error == old(error) && query == old(query) && category == old(category)
    {
      service.SaveEvents(response.events, now);
      ShowPage(response.events, response.hasMore, page, isRefresh);
      SyncedHearts(old(favoriteStatuses), old(service.store.isOpen), old(service.store.events), response.events, now);
    }

    /** What both branches of `loadEvents` do with the rows they got: show
        them (replacing or appending), read their hearts, take over
        `hasMore` and the page. */
    method ShowPage(loaded: seq<Event>, more: bool, page: int, isRefresh: bool)
      modifies this
      ensures events == NextEvents(old(events), loaded, page, isRefresh)
      ensures hasMore == more && currentPage == page
      ensures favoriteStatuses ==
        old(favoriteStatuses) + StatusesOf(service.store.isOpen, service.store.events, Ids(loaded))
      ensures loading == old(loading) && refreshing == old(refreshing) && loadingMore == old(loadingMore)
      ensures error == old(error) && query == old(query) && category == old(category)
    {
      events := NextEvents(events, loaded, page, isRefresh);
      LoadFavoriteStatuses(Ids(loaded));
      hasMore := more;
      currentPage := page;
    }

    /** The fallback branch of `loadEvents`: show the cache's page. */
    method ShowCached(page: int, pageQuery: string, pageCategory: CategoryFilter, isRefresh: bool)
      modifies this
      ensures var p := if service.store.isOpen
        then CachePage(service.store.events, page, pageCategory, pageQuery) else EmptyPage;
        events == NextEvents(old(events), p.events, page, isRefresh) &&
        hasMore == p.hasMore &&
        favoriteStatuses == old(favoriteStatuses) + StatusesOf(service.store.isOpen, service.store.events, Ids(p.events))
      ensures currentPage == page
      ensures loading == old(loading) && refreshing == old(refreshing) && loadingMore == old(loadingMore)
      ensures error == old(error) && query == old(query) && category == old(category)
    {
      var dbResponse := service.GetEvents(page, pageCategory, pageQuery);
      ShowPage(dbResponse.events, dbResponse.hasMore, page, isRefresh);
    }

    /** `loadEvents(page, query, category, isRefresh)`, given the API's
        answer. A delivered page is cached, shown (replacing or appending)
        and its hearts read; otherwise the cache's page is shown the same
        way. Either way `currentPage` becomes page and every spinner is off
        at the end. Nothing in the body can throw past the inner fallback,
        so the error is only ever cleared, never set. */
    method LoadEvents(page: int, query: string, category: CategoryFilter, isRefresh: bool,
                      remote: Result<EventsResponse>, now: int)
      modifies this, service.store
      ensures !loading && !refreshing && !loadingMore
      ensures error == if isRefresh || page == 1 then None else old(error)
      ensures this.query == old(this.query) && this.category == old(this.category)
      ensures currentPage == page
      ensures service.store.isOpen == old(service.store.isOpen)
      ensures remote.Ok? ==>
        (service.store.events == (if old(service.store.isOpen)
           then UpsertAll(old(service.store.events), remote.value.events, now) else old(service.store.events)) &&
         events == NextEvents(old(events), remote.value.events, page, isRefresh) &&
         hasMore == remote.value.hasMore &&
         favoriteStatuses ==
           old(favoriteStatuses) + StatusesOf(service.store.isOpen, service.store.events, Ids(remote.value.events)))
      ensures remote.Ok? ==> forall i :: 0 <= i < |remote.value.events| ==>
        (favoriteStatuses[remote.value.events[i].id] <==>
         old(service.store.isOpen) && FavoriteOf(old(service.store.events), remote.value.events[i].id))
      ensures remote.Err? ==>
        var p := if old(service.store.isOpen) then CachePage(old(service.store.events), page, category, query) else EmptyPage;
        service.store.events == old(service.store.events) &&
        events == NextEvents(old(events), p.events, page, isRefresh) &&
        hasMore == p.hasMore &&
        favoriteStatuses == old(favoriteStatuses) + StatusesOf(service.store.isOpen, service.store.events, Ids(p.events))
    {
      BeginLoad(page, isRefresh);
      if remote.Ok? {
        ShowDelivered(remote.value, page, isRefresh, now);
      } else {
        ShowCached(page, query, category, isRefresh);
      }
      loading := false;
      refreshing := false;
      loadingMore := false;
    }

    /** The start of `loadEvents`: the spinner for the kind of load goes on,
        and a refresh or a first page clears the error. */
    method BeginLoad(page: int, isRefresh: bool)
      modifies this
      ensures isRefresh ==> refreshing && loading == old(loading) && loadingMore == old(loadingMore)
      ensures !isRefresh && page == 1 ==> loading && refreshing == old(refreshing) && loadingMore == old(loadingMore)
      ensures !isRefresh && page != 1 ==> loadingMore && loading == old(loading) && refreshing == old(refreshing)
      ensures error == if isRefresh || page == 1 then None else old(error)
      ensures events == old(events) && hasMore == old(hasMore) && currentPage == old(currentPage)
      ensures favoriteStatuses == old(favoriteStatuses) && query == old(query) && category == old(category)
    {
      if isRefresh {
        refreshing := true;
        error := None;
      } else if page == 1 {
        loading := true;
        error := None;
      } else {
        loadingMore := true;
      }
    }

    /** `loadMoreEvents()`: the next page, unless a load is running or there
        is nothing more. Offline, a list that held pages 1..currentPage of
        the cache then holds pages 1..currentPage + 1. */
    method LoadMoreEvents(remote: Result<EventsResponse>, now: int)
      modifies this, service.store
      ensures !(old(!loadingMore && hasMore && !loading)) ==>
        (events == old(events) && currentPage == old(currentPage) && hasMore == old(hasMore) &&
         favoriteStatuses == old(favoriteStatuses) && error == old(error) &&
         loading == old(loading) && loadingMore == old(loadingMore) && refreshing == old(refreshing) &&
         service.store.isOpen == old(service.store.isOpen) && service.store.events == old(service.store.events))
      ensures old(!loadingMore && hasMore && !loading) ==>
        (currentPage == old(currentPage) + 1 && !loading && !loadingMore && !refreshing &&
         error == (if old(currentPage) + 1 == 1 then None else old(error)) &&
         service.store.isOpen == old(service.store.isOpen))
      ensures old(!loadingMore && hasMore && !loading) && remote.Ok? ==>
        service.store.events == (if old(service.store.isOpen)
          then UpsertAll(old(service.store.events), remote.value.events, now) else old(service.store.events)) &&
        events == NextEvents(old(events), remote.value.events, old(currentPage) + 1, false) &&
        hasMore == remote.value.hasMore &&
        favoriteStatuses ==
          old(favoriteStatuses) + StatusesOf(service.store.isOpen, service.store.events, Ids(remote.value.events))
      ensures old(!loadingMore && hasMore && !loading) && remote.Err? ==>
        var p := if old(service.store.isOpen)
          then CachePage(old(service.store.events), old(currentPage) + 1, category, query) else EmptyPage;
        service.store.events == old(service.store.events) &&
        events == NextEvents(old(events), p.events, old(currentPage) + 1, false) &&
        hasMore == p.hasMore &&
        favoriteStatuses == old(favoriteStatuses) + StatusesOf(service.store.isOpen, service.store.events, Ids(p.events))
      ensures old(!loadingMore && hasMore && !loading) && remote.Ok? && old(currentPage) >= 1 ==>
        events == old(events) + remote.value.events
      ensures old(!loadingMore && hasMore && !loading) && remote.Err? &&
              old(service.store.isOpen) && old(currentPage) >= 1 &&
              old(events) == PagesUpTo(old(service.store.events), old(currentPage), category, query) ==>
        events == PagesUpTo(service.store.events, currentPage, category, query)
      ensures query == old(query) && category == old(category)
    {
      if !loadingMore && hasMore && !loading {
        if currentPage >= 1 {
          NextCachePage(service.store.events, currentPage, category, query);
        }
        LoadNextPage(remote, now);
      }
    }

    /** The call `loadEvents(currentPage + 1, searchQuery, selectedCategory)`
        that `loadMoreEvents` makes. */
    method LoadNextPage(remote: Result<EventsResponse>, now: int)
      modifies this, service.store
      ensures currentPage == old(currentPage) + 1 && !loading && !loadingMore && !refreshing
      ensures error == (if old(currentPage) + 1 == 1 then None else old(error))
      ensures service.store.isOpen == old(service.store.isOpen)
      ensures remote.Ok? ==>
        service.store.events == (if old(service.store.isOpen)
          then UpsertAll(old(service.store.events), remote.value.events, now) else old(service.store.events)) &&
        events == NextEvents(old(events), remote.value.events, old(currentPage) + 1, false) &&
        hasMore == remote.value.hasMore &&
        favoriteStatuses ==
          old(favoriteStatuses) + StatusesOf(service.store.isOpen, service.store.events, Ids(remote.value.events))
      ensures remote.Err? ==>
        var p := if old(service.store.isOpen)
          then CachePage(old(service.store.events), old(currentPage) + 1, category, query) else EmptyPage;
        service.store.events == old(service.store.events) &&
        events == NextEvents(old(events), p.events, old(currentPage) + 1, false) &&
        hasMore == p.hasMore &&
        favoriteStatuses == old(favoriteStatuses) + StatusesOf(service.store.isOpen, service.store.events, Ids(p.events))
      ensures query == old(query) && category == old(category)
    {
      LoadEvents(currentPage + 1, query, category, false, remote, now);
    }

    /** `refreshEvents()`: page 1 again, through the pull-to-refresh path. */
    method RefreshEvents(remote: Result<EventsResponse>, now: int)
      modifies this, service.store
      ensures currentPage == 1 && error == None && !loading && !refreshing && !loadingMore
      ensures service.store.isOpen == old(service.store.isOpen)
      ensures remote.Ok? ==>
        service.store.events == (if old(service.store.isOpen)
          then UpsertAll(old(service.store.events), remote.value.events, now) else old(service.store.events)) &&
        events == remote.value.events && hasMore == remote.value.hasMore &&
        favoriteStatuses ==
          old(favoriteStatuses) + StatusesOf(service.store.isOpen, service.store.events, Ids(remote.value.events))
      ensures remote.Err? ==>
        var p := if old(service.store.isOpen) then CachePage(old(service.store.events), 1, old(category), old(query)) else EmptyPage;
        service.store.events == old(service.store.events) &&
        events == p.events && hasMore == p.hasMore &&
        favoriteStatuses == old(favoriteStatuses) + StatusesOf(service.store.isOpen, service.store.events, Ids(p.events))
      ensures query == old(query) && category == old(category)
    {
      LoadEvents(1, query, category, true, remote, now);
    }

    /** `handleSearch(query)`: remember the query and load its first page. */
    method HandleSearch(newQuery: string, remote: Result<EventsResponse>, now: int)
      modifies this, service.store
      ensures query == newQuery && category == old(category)
      ensures currentPage == 1 && error == None && !loading && !refreshing && !loadingMore
      ensures service.store.isOpen == old(service.store.isOpen)
      ensures remote.Ok? ==>
        service.store.events == (if old(service.store.isOpen)
          then UpsertAll(old(service.store.events), remote.value.events, now) else old(service.store.events)) &&
        events == remote.value.events && hasMore == remote.value.hasMore &&
        favoriteStatuses ==
          old(favoriteStatuses) + StatusesOf(service.store.isOpen, service.store.events, Ids(remote.value.events))
      ensures remote.Err? ==>
        var p := if old(service.store.isOpen) then CachePage(old(service.store.events), 1, old(category), newQuery) else EmptyPage;
        service.store.events == old(service.store.events) &&
        events == p.events && hasMore == p.hasMore &&
        favoriteStatuses == old(favoriteStatuses) + StatusesOf(service.store.isOpen, service.store.events, Ids(p.events))
    {
      query := newQuery;
      LoadEvents(1, newQuery, category, false, remote, now);
    }

    /** `handleCategorySelect(category)`: remember the category and load its
        first page. */
    method HandleCategorySelect(newCategory: CategoryFilter, remote: Result<EventsResponse>, now: int)
      modifies this, service.store
      ensures category == newCategory && query == old(query)
      ensures currentPage == 1 && error == None && !loading && !refreshing && !loadingMore
      ensures service.store.isOpen == old(service.store.isOpen)
      ensures remote.Ok? ==>
        service.store.events == (if old(service.store.isOpen)
          then UpsertAll(old(service.store.events), remote.value.events, now) else old(service.store.events)) &&
        events == remote.value.events && hasMore == remote.value.hasMore &&
        favoriteStatuses ==
          old(favoriteStatuses) + StatusesOf(service.store.isOpen, service.store.events, Ids(remote.value.events))
      ensures remote.Err? ==>
        var p := if old(service.store.isOpen) then CachePage(old(service.store.events), 1, newCategory, old(query)) else EmptyPage;
        service.store.events == old(service.store.events) &&
        events == p.events && hasMore == p.hasMore &&
        favoriteStatuses == old(favoriteStatuses) + StatusesOf(service.store.isOpen, service.store.events, Ids(p.events))
    {
      category := newCategory;
      LoadEvents(1, query, newCategory, false, remote, now);
    }

    /** `handleFavoriteToggle(eventId)`: the heart becomes the store's answer. */
    method HandleFavoriteToggle(id: string)
      modifies this, service.store
      ensures service.store.isOpen == old(service.store.isOpen)
      ensures service.store.events ==
        if old(service.store.isOpen) && id in old(service.store.events)
        then Toggle(old(service.store.events), id) else old(service.store.events)
      ensures favoriteStatuses ==
        old(favoriteStatuses)[id := service.store.isOpen && FavoriteOf(service.store.events, id)]
      ensures events == old(events) && currentPage == old(currentPage) && hasMore == old(hasMore)
      ensures loading == old(loading) && refreshing == old(refreshing) && loadingMore == old(loadingMore)
      ensures error == old(error) && query == old(query) && category == old(category)
    {
      var favorite := service.ToggleFavorite(id);
      favoriteStatuses := favoriteStatuses[id := favorite];
    }
  }
}
