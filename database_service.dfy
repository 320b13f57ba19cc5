/** `DatabaseService`: the facade the screens call instead of the store. Every
    operation delegates to the one `SQLiteDatabase` and turns a rejection into
    a harmless default (an empty page, null, [], false) or into nothing, so no
    call made through it ever fails. */
module DatabaseFacade {
  import opened Types
  import opened EventTable
  import opened SQLiteStore

  class DatabaseService {
    /** The module-level `sqliteDatabase` instance. */
    const store: SQLiteDatabase

    constructor (store: SQLiteDatabase)
      ensures this.store == store
    {
      this.store := store;
    }

    /** `getEvents`: the store's page, or an empty page with no more to load. */
    method GetEvents(page: int, category: CategoryFilter, query: string) returns (p: EventPage)
      ensures store.isOpen ==> p == CachePage(store.events, page, category, query)
      ensures !store.isOpen ==> p == EmptyPage
    {
      var r := store.GetEvents(page, category, query);
      if r.Err? {
        return EmptyPage;
      }
      return r.value;
    }

    /** `getEventById`: the stored details, or null when the row is missing or
        the store fails. */
    method GetEventById(id: string) returns (d: Option<EventDetails>)
      ensures store.isOpen && id in store.events ==> d == Some(DetailsOf(id, store.events[id]))
      ensures !(store.isOpen && id in store.events) ==> d == None
    {
      var r := store.GetEventById(id);
      if r.Err? {
        return None;
      }
      return r.value;
    }

    /** `getFavoriteEvents`: the favourites, or [] when the store fails. */
    method GetFavoriteEvents() returns (es: seq<Event>)
      ensures store.isOpen ==> es == FavoritesList(store.events)
      ensures !store.isOpen ==> es == []
    {
      var r := store.GetFavoriteEvents();
      if r.Err? {
        return [];
      }
      return r.value;
    }

    /** `saveEvents`: a failure is logged and swallowed. */
    method SaveEvents(es: seq<Event>, now: int)
      modifies store
      ensures store.isOpen == old(store.isOpen)
      ensures store.events == if old(store.isOpen) then UpsertAll(old(store.events), es, now) else old(store.events)
    {
      var _ := store.SaveEvents(es, now);
    }

    /** `saveEventDetails`: a failure is logged and swallowed. */
    method SaveEventDetails(d: EventDetails, now: int)
      modifies store
      ensures store.isOpen == old(store.isOpen)
      ensures store.events == if old(store.isOpen) then UpsertDetails(old(store.events), d, now) else old(store.events)
    {
      var _ := store.SaveEventDetails(d, now);
    }

    /** `toggleFavorite`: the new flag, or false when the store fails (closed
        database or unknown id), in which case nothing changes. */
    method ToggleFavorite(id: string) returns (favorite: bool)
      modifies store
      ensures store.isOpen == old(store.isOpen)
      ensures favorite <==> old(store.isOpen) && id in old(store.events) && !old(store.events)[id].isFavorite
      ensures store.events == if old(store.isOpen) && id in old(store.events) then Toggle(old(store.events), id) else old(store.events)
    {
      var r := store.ToggleFavorite(id);
      if r.Err? {
        return false;
      }
      return r.value;
    }

    /** `isFavorite`: false for an unknown id and when the store fails. */
    method IsFavorite(id: string) returns (favorite: bool)
      ensures favorite <==> store.isOpen && FavoriteOf(store.events, id)
    {
      var r := store.IsFavorite(id);
      if r.Err? {
        return false;
      }
      return r.value;
    }

    /** `clearOldCache`: a failure is logged and swallowed. */
    method ClearOldCache(now: int)
      modifies store
      ensures store.isOpen == old(store.isOpen)
      ensures store.events == if old(store.isOpen) then Evict(old(store.events), now) else old(store.events)
    {
      var _ := store.ClearOldCache(now);
    }
  }
}
