/** `MockApiService`: the remote catalogue the app talks to, served from a static
    list of events. Each call either delivers its answer or fails with
    "Network request failed. Please try again."; which one happens, and every
    other random draw, is a parameter. */
module MockApi {
  import opened Types
  import opened Strings
  import opened Paging
  import opened SqlLike
  import opened EventTable

  /** `simulateNetworkCall`: the answer, unless the simulated network drops it. */
  function Deliver<T>(delivered: bool, data: T): (r: Result<T>)
    ensures r.Ok? <==> delivered
    ensures r.Ok? ==> r.value == data
    ensures r.Err? ==> r.message == NetworkFailureMessage
  {
    if delivered then Ok(data) else Err(NetworkFailureMessage)
  }

  // ---------------------------------------------------------------------------
  // GET /events

  /** One `filter` pass of `getEvents`. */
  datatype Narrowing = ByTitle(query: string) | ByCategory(category: Category)

  predicate Passes(e: Event, n: Narrowing) {
    match n
    case ByTitle(q) => Includes(Lower(e.title), Lower(q))
    case ByCategory(c) => e.category == c
  }

  /** `es.filter(...)`: the events that pass, in their order. */
  function Narrow(es: seq<Event>, n: Narrowing): (r: seq<Event>)
    ensures |r| <= |es|
    ensures forall e :: e in r <==> e in es && Passes(e, n)
    decreases |es|
  {
    if es == [] then []
    else (if Passes(es[0], n) then [es[0]] else []) + Narrow(es[1..], n)
  }

  /** The events `getEvents` keeps: the title filter for a non-empty query,
      then the category filter unless 'All'. */
  function Filtered(es: seq<Event>, query: string, category: CategoryFilter): seq<Event> {
    var searched := if query != [] then Narrow(es, ByTitle(query)) else es;
    if category.Only? then Narrow(searched, ByCategory(category.category)) else searched
  }

  /** What the two filters ask of one event together. */
  predicate Selected(e: Event, query: string, category: CategoryFilter) {
    (query == [] || Includes(Lower(e.title), Lower(query))) && CategoryMatches(category, e.category)
  }

  /** `getEvents(page, searchQuery, category)`. */
  function GetEvents(catalogue: seq<Event>, page: int, query: string, category: CategoryFilter,
                     delivered: bool): Result<EventsResponse>
  {
    var filtered := Filtered(catalogue, query, category);
    var startIndex := (page - 1) * PageSize;
    var endIndex := startIndex + PageSize;
    Deliver(delivered, EventsResponse(JsSlice(filtered, startIndex, endIndex), |filtered|, page, endIndex < |filtered|))
  }

  /** Filtering keeps exactly the selected events. */
  lemma FilteredSelects(es: seq<Event>, query: string, category: CategoryFilter)
    ensures forall e :: e in Filtered(es, query, category) <==> e in es && Selected(e, query, category)
  {
  }

  /** One step of the filter on a sequence that starts with x. */
  lemma NarrowCons(x: Event, t: seq<Event>, n: Narrowing)
    ensures Narrow([x] + t, n) == (if Passes(x, n) then [x] else []) + Narrow(t, n)
  {
    assert ([x] + t)[0] == x && ([x] + t)[1..] == t;
  }

  /** Filtering keeps catalogue order: it distributes over concatenation. */
  lemma {:induction false} NarrowAppend(a: seq<Event>, b: seq<Event>, n: Narrowing)
    ensures Narrow(a + b, n) == Narrow(a, n) + Narrow(b, n)
    decreases |a|
  {
    if a != [] {
      var x, t := a[0], a[1..];
      assert a == [x] + t && a + b == [x] + (t + b);
      NarrowCons(x, t, n);
      NarrowCons(x, t + b, n);
      NarrowAppend(t, b, n);
      AppendAssociates(if Passes(x, n) then [x] else [], Narrow(t, n), Narrow(b, n));
    } else {
      assert a + b == b;
    }
  }

  lemma FilteredAppend(a: seq<Event>, b: seq<Event>, query: string, category: CategoryFilter)
    ensures Filtered(a + b, query, category) == Filtered(a, query, category) + Filtered(b, query, category)
  {
    var sa := if query != [] then Narrow(a, ByTitle(query)) else a;
    var sb := if query != [] then Narrow(b, ByTitle(query)) else b;
    if query != [] {
      NarrowAppend(a, b, ByTitle(query));
    }
    if category.Only? {
      NarrowAppend(sa, sb, ByCategory(category.category));
    }
  }

  /** Filtering a catalogue without repeated events gives no repetitions. */
  lemma {:induction false} NarrowDistinct(es: seq<Event>, n: Narrowing)
    requires Distinct(es)
    ensures Distinct(Narrow(es, n))
    decreases |es|
  {
    if es != [] {
      assert Distinct(es[1..]) by {
        forall i, j | 0 <= i < |es[1..]| && 0 <= j < |es[1..]| && i != j ensures es[1..][i] != es[1..][j] {
          assert es[1..][i] == es[i + 1] && es[1..][j] == es[j + 1];
        }
      }
      NarrowDistinct(es[1..], n);
      assert es[0] !in es[1..] by {
        forall k | 0 <= k < |es[1..]| ensures es[1..][k] != es[0] {
          assert es[1..][k] == es[k + 1];
        }
      }
    }
  }

  lemma FilteredDistinct(es: seq<Event>, query: string, category: CategoryFilter)
    requires Distinct(es)
    ensures Distinct(Filtered(es, query, category))
  {
    var searched := if query != [] then Narrow(es, ByTitle(query)) else es;
    if query != [] {
      NarrowDistinct(es, ByTitle(query));
    }
    if category.Only? {
      NarrowDistinct(searched, ByCategory(category.category));
    }
  }

  /** A delivered page: the filtered events from (page - 1) * 10, at most ten,
      the filtered count, the requested page, and whether page * 10 < count. */
  lemma GetEventsPage(catalogue: seq<Event>, page: int, query: string, category: CategoryFilter, delivered: bool)
    ensures GetEvents(catalogue, page, query, category, delivered).Ok? <==> delivered
    ensures var r := GetEvents(catalogue, page, query, category, delivered);
      r.Err? ==> r.message == NetworkFailureMessage
    ensures var r := GetEvents(catalogue, page, query, category, delivered);
      var filtered := Filtered(catalogue, query, category);
      r.Ok? ==>
        r.value.events == RemoteSlice(filtered, page) && |r.value.events| <= PageSize &&
        r.value.totalCount == |filtered| && r.value.page == page &&
        (r.value.hasMore <==> page * PageSize < |filtered|)
    ensures var r := GetEvents(catalogue, page, query, category, delivered);
      r.Ok? ==> forall e :: e in r.value.events ==> e in catalogue && Selected(e, query, category)
  {
    var filtered := Filtered(catalogue, query, category);
    FilteredSelects(catalogue, query, category);
  }

  /** The events of remote pages 1..p, in the order they were loaded. */
  function RemotePagesUpTo(catalogue: seq<Event>, p: nat, query: string, category: CategoryFilter): seq<Event> {
    if p == 0 then []
    else RemotePagesUpTo(catalogue, p - 1, query, category) + RemoteSlice(Filtered(catalogue, query, category), p)
  }

  /** Loading pages 1..p yields the first p * 10 filtered events, in catalogue
      order and without gaps. */
  lemma RemotePagesArePrefix(catalogue: seq<Event>, p: nat, query: string, category: CategoryFilter)
    ensures var filtered := Filtered(catalogue, query, category);
      RemotePagesUpTo(catalogue, p, query, category) == filtered[..Min(p * PageSize, |filtered|)]
  {
    RemotePagesAccumulate(catalogue, p, query, category);
    AccumulatedIsPrefix(Filtered(catalogue, query, category), p);
  }

  /** The remote pages 1..p are the filtered list's pages 1..p. */
  lemma {:induction false} RemotePagesAccumulate(catalogue: seq<Event>, p: nat, query: string, category: CategoryFilter)
    ensures RemotePagesUpTo(catalogue, p, query, category) == Accumulated(Filtered(catalogue, query, category), p)
  {
    if p > 0 {
      RemotePagesAccumulate(catalogue, p - 1, query, category);
      SlicesAgree(Filtered(catalogue, query, category), p);
    }
  }

  /** Two different pages of a catalogue without repeated events share none. */
  lemma RemotePagesDisjoint(catalogue: seq<Event>, p: int, q: int, query: string, category: CategoryFilter, e: Event)
    requires Distinct(catalogue)
    requires 1 <= p < q
    ensures var filtered := Filtered(catalogue, query, category);
      !(e in RemoteSlice(filtered, p) && e in RemoteSlice(filtered, q))
  {
    var filtered := Filtered(catalogue, query, category);
    FilteredDistinct(catalogue, query, category);
    SlicesAgree(filtered, p);
    SlicesAgree(filtered, q);
    PagesDisjoint(filtered, p, q, e);
  }

  /** The remote's title search and the cache's LIKE search, together with the
      category condition, select the same events when the query holds no `%`
      or `_` (see SqlLike.UnderscoreQueryDiffers for when they differ). */
  lemma RemoteAndCacheSelectAlike(e: Event, query: string, category: CategoryFilter, favorite: bool, now: int)
    requires WildcardFree(query)
    ensures Selected(e, query, category) <==> RowMatches(SummaryRow(e, favorite, now), category, query)
  {
    LikeAgreesWithIncludes(e.title, query);
  }

  // ---------------------------------------------------------------------------
  // GET /events/{id}

  /** The fields of a detail file (`event_00N.json`); a field the file lacks
      is None and keeps the catalogue's value when merged. */
  datatype DetailFile = DetailFile(
    id: Option<string>,
    title: Option<string>,
    category: Option<Category>,
    startsAt: Option<string>,
    city: Option<string>,
    price: Option<int>,
    thumbnail: Option<string>,
    description: string,
    venue: string,
    speakers: seq<string>,
    capacity: int,
    remaining: int)

  /** The three detail files bundled with the app. */
  datatype DetailFiles = DetailFiles(evt001: DetailFile, evt002: DetailFile, evt003: DetailFile)

  /** The `switch (eventId)`: a bundled file for the first three events, none
      for the others. */
  function FileFor(files: DetailFiles, id: string): (f: Option<DetailFile>)
    ensures f.Some? <==> id in {"evt_001", "evt_002", "evt_003"}
  {
    if id == "evt_001" then Some(files.evt001)
    else if id == "evt_002" then Some(files.evt002)
    else if id == "evt_003" then Some(files.evt003)
    else None
  }

  /** `eventsData.events.find(event => event.id === eventId)`. */
  function Find(es: seq<Event>, id: string): (r: Option<Event>)
    ensures r.None? <==> forall e :: e in es ==> e.id != id
    ensures r.Some? ==> r.value in es && r.value.id == id
    ensures r.Some? ==> exists i :: 0 <= i < |es| && es[i] == r.value && forall j :: 0 <= j < i ==> es[j].id != id
    decreases |es|
  {
    if es == [] then None
    else if es[0].id == id then Some(es[0])
    else
      var r := Find(es[1..], id);
      if r.Some? then
        var i :| 0 <= i < |es[1..]| && es[1..][i] == r.value && forall j :: 0 <= j < i ==> es[1..][j].id != id;
        assert es[i + 1] == r.value && forall j :: 0 <= j < i + 1 ==> es[j].id != id;
        r
      else
        r
  }

  /** The random draws behind a generated detail record:
      `Math.floor(Math.random() * 200)` and `Math.floor(Math.random() * 50)`. */
  datatype Draws = Draws(capacity: nat, remaining: nat)

  predicate ValidDraws(d: Draws) {
    d.capacity < 200 && d.remaining < 50
  }

  /** The detail record made up for an event without a bundled file. */
  function Generated(base: Event, draws: Draws): (f: DetailFile)
    requires ValidDraws(draws)
    ensures f.title == Some(base.title) && f.id == Some(base.id)
    ensures f.venue == CategoryName(base.category) + " Center, " + base.city
    ensures f.speakers == ["Speaker One", "Speaker Two", "Speaker Three"]
    ensures 50 <= f.capacity < 250 && 10 <= f.remaining < 60
  {
    DetailFile(Some(base.id), Some(base.title), None, None, None, None, None,
      "Detailed description for " + base.title + ". This is a comprehensive event that covers all aspects of the topic.",
      CategoryName(base.category) + " Center, " + base.city,
      ["Speaker One", "Speaker Two", "Speaker Three"],
      draws.capacity + 50, draws.remaining + 10)
  }

  /** `{ ...baseEvent, ...detailedData }`: a field present in the detail
      record wins over the catalogue's. */
  function Merge(base: Event, f: DetailFile): (d: EventDetails)
    ensures d.event.id == f.id.GetOr(base.id) && d.event.title == f.title.GetOr(base.title)
    ensures d.event.category == f.category.GetOr(base.category)
    ensures d.event.startsAt == f.startsAt.GetOr(base.startsAt) && d.event.city == f.city.GetOr(base.city)
    ensures d.event.price == f.price.GetOr(base.price) && d.event.thumbnail == f.thumbnail.GetOr(base.thumbnail)
    ensures d.description == f.description && d.venue == f.venue && d.speakers == f.speakers
    ensures d.capacity == f.capacity && d.remaining == f.remaining
  {
    EventDetails(
      Event(f.id.GetOr(base.id), f.title.GetOr(base.title), f.category.GetOr(base.category),
        f.startsAt.GetOr(base.startsAt), f.city.GetOr(base.city), f.price.GetOr(base.price),
        f.thumbnail.GetOr(base.thumbnail)),
      f.description, f.venue, f.speakers, f.capacity, f.remaining)
  }

  /** `getEventDetails(eventId)`. */
  function GetEventDetails(catalogue: seq<Event>, files: DetailFiles, id: string, draws: Draws,
                           delivered: bool): Result<EventDetails>
    requires ValidDraws(draws)
  {
    match Find(catalogue, id)
    case None => Err(EventNotFoundMessage)
    case Some(base) =>
      var detail := match FileFor(files, id) case Some(f) => f case None => Generated(base, draws);
      Deliver(delivered, Merge(base, detail))
  }

  /** Unknown ids fail with "Event not found" before any network call; a known
      id is answered with the first catalogue event of that id merged with its
      bundled file, or with a generated record when it has none. */
  lemma GetEventDetailsResult(catalogue: seq<Event>, files: DetailFiles, id: string, draws: Draws, delivered: bool)
    requires ValidDraws(draws)
    ensures var r := GetEventDetails(catalogue, files, id, draws, delivered);
      (forall e :: e in catalogue ==> e.id != id) ==> r == Err(EventNotFoundMessage)
    ensures var r := GetEventDetails(catalogue, files, id, draws, delivered);
      (exists e :: e in catalogue && e.id == id) ==>
        (r.Ok? <==> delivered) && (r.Err? ==> r.message == NetworkFailureMessage)
    ensures var r := GetEventDetails(catalogue, files, id, draws, delivered);
      r.Ok? ==>
        exists e :: e in catalogue && e.id == id && r.value.event.category ==
          (match FileFor(files, id) case Some(f) => f.category.GetOr(e.category) case None => e.category)
    ensures var r := GetEventDetails(catalogue, files, id, draws, delivered);
      r.Ok? ==>
        var e := Find(catalogue, id).value;
        e in catalogue && e.id == id &&
        r.value == Merge(e, match FileFor(files, id) case Some(f) => f case None => Generated(e, draws))
  {
    var r := GetEventDetails(catalogue, files, id, draws, delivered);
    if r.Ok? {
      var base := Find(catalogue, id).value;
      assert base in catalogue && base.id == id;
    }
  }

  /** An event without a bundled file keeps every catalogue field, gets the
      generated venue and speakers, and always has seats left (10 to 59). */
  lemma GeneratedDetails(catalogue: seq<Event>, files: DetailFiles, id: string, draws: Draws)
    requires ValidDraws(draws)
    requires FileFor(files, id).None?
    requires exists e :: e in catalogue && e.id == id
    ensures var r := GetEventDetails(catalogue, files, id, draws, true);
      r.Ok? && r.value.event == Find(catalogue, id).value &&
      r.value.venue == CategoryName(r.value.event.category) + " Center, " + r.value.event.city &&
      10 <= r.value.remaining < 60 && Classify(r.value.remaining) != SoldOut
  {
  }

  /** The generated record is not internally consistent: a capacity of 50 can
      come with 59 remaining seats. */
  lemma GeneratedRemainingCanExceedCapacity(base: Event)
    ensures var f := Generated(base, Draws(0, 49)); f.remaining > f.capacity
  {
  }

  // ---------------------------------------------------------------------------
  // POST /checkout

  datatype CheckoutRequest = CheckoutRequest(eventId: string, quantity: int, name: string, email: string)

  const MissingInformationMessage: string := "Missing required checkout information"
  const InvalidEmailMessage: string := "Invalid email format"
  const InvalidQuantityMessage: string := "Invalid quantity. Must be between 1 and 10"
  const ReferencePrefix: string := "EH-2025-"

  /** A character `[^\s@]` accepts. */
  predicate EmailChar(c: char) {
    !IsJsWhitespace(c) && c != '@'
  }

  /** s is `local@domain` with a '.' at position j of s inside the domain, and
      every other character an EmailChar. */
  predicate EmailSplit(s: string, i: int, j: int) {
    0 < i && i + 1 < j < |s| - 1 && s[i] == '@' && s[j] == '.' &&
    forall k :: 0 <= k < |s| && k != i ==> EmailChar(s[k])
  }

  /** `/^[^\s@]+@[^\s@]+\.[^\s@]+$/.test(s)`. */
  predicate MatchesCheckoutEmail(s: string) {
    exists i, j | 0 <= i < |s| && 0 <= j < |s| :: EmailSplit(s, i, j)
  }

  /** The reference `EH-2025-` followed by the random number padded to six digits. */
  function Reference(draw: nat): (r: string)
    requires draw < 1000000
    ensures |r| == 14 && r[..8] == ReferencePrefix
    ensures ParseInt(r[8..]) == Some(draw)
  {
    var digits := PadStart(NatToString(draw), 6, '0');
    assert Pow10(6) == 1000000;
    NatToStringLength(draw, 6);
    ParseIntOfPadded(draw, 6);
    assert (ReferencePrefix + digits)[8..] == digits;
    ReferencePrefix + digits
  }

  function Pow10(k: nat): nat {
    if k == 0 then 1 else 10 * Pow10(k - 1)
  }

  /** A number below 10^k has at most k digits. */
  lemma {:induction false} NatToStringLength(n: nat, k: nat)
    requires k >= 1 && n < Pow10(k)
    ensures |NatToString(n)| <= k
    decreases n
  {
    if n >= 10 {
      assert Pow10(1) == 10;
      NatToStringLength(n / 10, k - 1);
    }
  }

  /** `checkout(request)`: the validations in order, then the network. */
  function Checkout(req: CheckoutRequest, draw: nat, delivered: bool): (r: Result<string>)
    requires draw < 1000000
  {
    if req.eventId == [] || req.quantity == 0 || req.name == [] || req.email == [] then
      Err(MissingInformationMessage)
    else if !MatchesCheckoutEmail(req.email) then Err(InvalidEmailMessage)
    else if req.quantity <= 0 || req.quantity > 10 then Err(InvalidQuantityMessage)
    else Deliver(delivered, Reference(draw))
  }

  /** A checkout succeeds exactly for a complete request with a well-formed
      email, 1 to 10 tickets and a delivered answer, and its reference starts
      with `EH-2025-`; each failure carries the first rule the request breaks. */
  lemma CheckoutOutcome(req: CheckoutRequest, draw: nat, delivered: bool)
    requires draw < 1000000
    ensures var r := Checkout(req, draw, delivered);
      r.Ok? <==>
        (req.eventId != [] && req.name != [] && req.email != [] &&
         MatchesCheckoutEmail(req.email) && 1 <= req.quantity <= 10 && delivered)
    ensures var r := Checkout(req, draw, delivered);
      r.Ok? ==> |r.value| == 14 && r.value[..8] == ReferencePrefix && ParseInt(r.value[8..]) == Some(draw)
    ensures var r := Checkout(req, draw, delivered);
      (req.eventId == [] || req.quantity == 0 || req.name == [] || req.email == []) ==>
        r == Err(MissingInformationMessage)
    ensures var r := Checkout(req, draw, delivered);
      (req.eventId != [] && req.quantity != 0 && req.name != [] && req.email != [] &&
       !MatchesCheckoutEmail(req.email)) ==> r == Err(InvalidEmailMessage)
    ensures var r := Checkout(req, draw, delivered);
      (req.eventId != [] && req.name != [] && MatchesCheckoutEmail(req.email) &&
       (req.quantity < 0 || req.quantity > 10)) ==> r == Err(InvalidQuantityMessage)
  {
  }

  // ---------------------------------------------------------------------------
  // Categories and availability

  /** `getCategories()`. */
  function GetCategories(): (cs: seq<Category>)
    ensures |cs| == 5
    ensures forall i, j :: 0 <= i < j < |cs| ==> cs[i] != cs[j]
    ensures cs[0] == Tech && cs[1] == Business && cs[2] == Health && cs[3] == Arts && cs[4] == Education
  {
    [Tech, Business, Health, Arts, Education]
  }

  /** Every category is offered. */
  lemma GetCategoriesComplete(c: Category)
    ensures c in GetCategories()
  {
    var cs := GetCategories();
    match c
    case Tech => assert cs[0] == c;
    case Business => assert cs[1] == c;
    case Health => assert cs[2] == c;
    case Arts => assert cs[3] == c;
    case Education => assert cs[4] == c;
  }

  /** `isEventSoldOut(eventId)`: no seats left; false when the lookup fails. */
  function IsEventSoldOut(catalogue: seq<Event>, files: DetailFiles, id: string, draws: Draws, delivered: bool): bool
    requires ValidDraws(draws)
  {
    match GetEventDetails(catalogue, files, id, draws, delivered)
    case Ok(d) => d.remaining == 0
    case Err(_) => false
  }

  /** `getEventAvailability(eventId)`: the classification of the remaining
      seats; 'available' when the lookup fails. */
  function GetEventAvailability(catalogue: seq<Event>, files: DetailFiles, id: string, draws: Draws, delivered: bool): Availability
    requires ValidDraws(draws)
  {
    match GetEventDetails(catalogue, files, id, draws, delivered)
    case Ok(d) => Classify(d.remaining)
    case Err(_) => Available
  }

  /** The two availability calls agree: an event is sold out exactly when its
      availability is 'sold_out', and a failed lookup reads as available. */
  lemma SoldOutIffAvailabilitySoldOut(catalogue: seq<Event>, files: DetailFiles, id: string, draws: Draws, delivered: bool)
    requires ValidDraws(draws)
    ensures IsEventSoldOut(catalogue, files, id, draws, delivered)
      <==> GetEventAvailability(catalogue, files, id, draws, delivered) == SoldOut
    ensures GetEventDetails(catalogue, files, id, draws, delivered).Err? ==>
      !IsEventSoldOut(catalogue, files, id, draws, delivered) &&
      GetEventAvailability(catalogue, files, id, draws, delivered) == Available
  {
  }
}
