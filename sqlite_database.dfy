/** The SQLite-backed event cache (`class SQLiteDatabase`): a connection that
    may or may not be open, and the persistent `events` table behind it. Every
    operation but opening and closing fails with "Database not initialized"
    while there is no connection. */
module SQLiteStore {
  import opened Types
  import opened Paging
  import opened EventTable

  class SQLiteDatabase {
    /** `db !== null`: a connection has been opened and not closed since. */
    var isOpen: bool
    /** The `events` table. It lives in the database file, so it outlasts
        any one connection. */
    var events: Table

    /** The module-level instance: no connection yet; the database file may
        hold rows from an earlier run. */
    constructor (persisted: Table)
      ensures !isOpen && events == persisted
    {
      isOpen := false;
      events := persisted;
    }

    /** `initDatabase`: open the database (its outcome is given) and create the
        table if it does not exist, which leaves existing rows alone. A failed
        open is rethrown and leaves the connection as it was. */
    method InitDatabase(openResult: Outcome) returns (r: Outcome)
      modifies this
      ensures r == openResult
      ensures isOpen == (openResult.Done? || old(isOpen))
      ensures events == old(events)
    {
      if openResult.Failed? {
        return openResult;
      }
      isOpen := true;
      return Done;
    }

    /** `closeDatabase`: without a connection nothing happens; otherwise the
        connection is closed (its outcome is given) and forgotten, unless
        closing failed, which is rethrown. */
    method CloseDatabase(closeResult: Outcome) returns (r: Outcome)
      modifies this
      ensures !old(isOpen) ==> r == Done && !isOpen
      ensures old(isOpen) ==> r == closeResult && isOpen == closeResult.Failed?
      ensures events == old(events)
    {
      if !isOpen {
        return Done;
      }
      if closeResult.Failed? {
        return closeResult;
      }
      isOpen := false;
      return Done;
    }

    /** The ids of the given rows in `ORDER BY cached_at DESC` order: the
        database engine's sort, taking the first remaining row each time. */
    method SelectOrdered(ids: set<string>) returns (ordered: seq<string>)
      requires ids <= events.Keys
      ensures ordered == Listing(events, ids)
    {
      var t := events;
      ordered := [];
      var rest := ids;
      while rest != {}
        invariant rest <= ids
        invariant ordered + Listing(t, rest) == Listing(t, ids)
        decreases |rest|
      {
        FirstExists(t, rest);
        var m :| IsFirst(t, rest, m);
        ListingStep(t, ids, rest, ordered, m);
        ordered := ordered + [m];
        rest := rest - {m};
      }
      assert ordered + [] == ordered;
    }

    /** The loop that turns result rows into `Event` summaries. */
    method BuildEvents(rows: seq<string>) returns (result: seq<Event>)
      requires forall id :: id in rows ==> id in events
      ensures result == Summaries(events, rows)
    {
      result := [];
      var i := 0;
      while i < |rows|
        invariant 0 <= i <= |rows|
        invariant result == Summaries(events, rows[..i])
      {
        result := result + [SummaryOf(rows[i], events[rows[i]])];
        i := i + 1;
      }
      assert rows[..i] == rows;
    }

    /** `getEvents(page, category, searchQuery)`: count the matching rows, then
        read page `page` of them, newest first. */
    method GetEvents(page: int, category: CategoryFilter, query: string) returns (r: Result<EventPage>)
      ensures !isOpen ==> r == Err(NotInitializedMessage)
      ensures isOpen ==> r == Ok(CachePage(events, page, category, query))
    {
      if !isOpen {
        return Err(NotInitializedMessage);
      }
      var matching := set id | id in events && RowMatches(events[id], category, query);
      var totalCount := |matching|;
      var ordered := SelectOrdered(matching);
      var offset := (page - 1) * PageSize;
      var rows := LimitOffset(ordered, PageSize, offset);
      var result := BuildEvents(rows);
      var hasMore := offset + PageSize < totalCount;
      return Ok(EventPage(result, hasMore, totalCount));
    }

    /** `getEventById`: the row's details, or None when there is no such row. */
    method GetEventById(id: string) returns (r: Result<Option<EventDetails>>)
      ensures !isOpen ==> r == Err(NotInitializedMessage)
      ensures isOpen && id !in events ==> r == Ok(None)
      ensures isOpen && id in events ==> r == Ok(Some(DetailsOf(id, events[id])))
    {
      if !isOpen {
        return Err(NotInitializedMessage);
      }
      if id !in events {
        return Ok(None);
      }
      return Ok(Some(DetailsOf(id, events[id])));
    }

    /** `getFavoriteEvents`: the rows with `is_favorite = 1`, newest first. */
    method GetFavoriteEvents() returns (r: Result<seq<Event>>)
      ensures !isOpen ==> r == Err(NotInitializedMessage)
      ensures isOpen ==> r == Ok(FavoritesList(events))
    {
      if !isOpen {
        return Err(NotInitializedMessage);
      }
      var favorites := set id | id in events && events[id].isFavorite;
      var ordered := SelectOrdered(favorites);
      var result := BuildEvents(ordered);
      return Ok(result);
    }

    /** `isFavorite`: false for an unknown id. */
    method IsFavorite(id: string) returns (r: Result<bool>)
      ensures !isOpen ==> r == Err(NotInitializedMessage)
      ensures isOpen ==> r == Ok(FavoriteOf(events, id))
    {
      if !isOpen {
        return Err(NotInitializedMessage);
      }
      return Ok(id in events && events[id].isFavorite);
    }

    /** `saveEvents`: upsert every event in order, each keeping the favourite
        flag its row had. */
    method SaveEvents(es: seq<Event>, now: int) returns (r: Outcome)
      modifies this
      ensures isOpen == old(isOpen)
      ensures !old(isOpen) ==> r == Failed(NotInitializedMessage) && events == old(events)
      ensures old(isOpen) ==> r == Done && events == UpsertAll(old(events), es, now)
    {
      if !isOpen {
        return Failed(NotInitializedMessage);
      }
      var i := 0;
      while i < |es|
        invariant 0 <= i <= |es|
        invariant isOpen
        invariant events == UpsertAll(old(events), es[..i], now)
      {
        var existing := IsFavorite(es[i].id);
        var favorite := existing == Ok(true);
        events := events[es[i].id := SummaryRow(es[i], favorite, now)];
        assert es[..i + 1][..i] == es[..i];
        i := i + 1;
      }
      assert es[..i] == es;
      return Done;
    }

    /** `saveEventDetails`: write every column of one event, keeping the
        favourite flag of an existing row. */
    method SaveEventDetails(d: EventDetails, now: int) returns (r: Outcome)
      modifies this
      ensures isOpen == old(isOpen)
      ensures !old(isOpen) ==> r == Failed(NotInitializedMessage) && events == old(events)
      ensures old(isOpen) ==> r == Done && events == UpsertDetails(old(events), d, now)
    {
      if !isOpen {
        return Failed(NotInitializedMessage);
      }
      var existing := GetEventById(d.event.id);
      var favorite := false;
      if existing.Ok? && existing.value.Some? {
        var status := IsFavorite(d.event.id);
        favorite := status == Ok(true);
      }
      events := events[d.event.id := DetailRow(d, favorite, now)];
      return Done;
    }

    /** `toggleFavorite`: read the flag, write its negation, return the new
        value; an unknown id fails with "Event not found". */
    method ToggleFavorite(id: string) returns (r: Result<bool>)
      modifies this
      ensures isOpen == old(isOpen)
      ensures !old(isOpen) ==> r == Err(NotInitializedMessage) && events == old(events)
      ensures old(isOpen) && id !in old(events) ==> r == Err(EventNotFoundMessage) && events == old(events)
      ensures old(isOpen) && id in old(events) ==>
        r == Ok(!old(events)[id].isFavorite) && events == Toggle(old(events), id)
    {
      if !isOpen {
        return Err(NotInitializedMessage);
      }
      if id !in events {
        return Err(EventNotFoundMessage);
      }
      var current := events[id].isFavorite;
      var newStatus := !current;
      events := events[id := events[id].(isFavorite := newStatus)];
      return Ok(newStatus);
    }

    /** `clearOldCache`: delete the non-favourite rows cached more than seven
        days before now. */
    method ClearOldCache(now: int) returns (r: Outcome)
      modifies this
      ensures isOpen == old(isOpen)
      ensures !old(isOpen) ==> r == Failed(NotInitializedMessage) && events == old(events)
      ensures old(isOpen) ==> r == Done && events == Evict(old(events), now)
    {
      if !isOpen {
        return Failed(NotInitializedMessage);
      }
      var cutoff := now - RetentionMs;
      events := map id | id in events && !(events[id].cachedAt < cutoff && !events[id].isFavorite) :: events[id];
      return Done;
    }

    /** `clearAllData`: delete every row. */
    method ClearAllData() returns (r: Outcome)
      modifies this
      ensures isOpen == old(isOpen)
      ensures !old(isOpen) ==> r == Failed(NotInitializedMessage) && events == old(events)
      ensures old(isOpen) ==> r == Done && events == map[]
    {
      if !isOpen {
        return Failed(NotInitializedMessage);
      }
      events := map[];
      return Done;
    }
  }
}
