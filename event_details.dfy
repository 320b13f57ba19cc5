/** The event-details screen: it starts from the summary it was navigated
    with, replaces it by the remote details (caching them) or, offline, by the
    cached row, reads the favourite flag, and decides between the sold-out
    alert and the checkout screen. */
module EventDetailsScreen {
  import opened Types
  import opened EventTable
  import opened DatabaseFacade
  import MockApi

  /** What the screen shows: the route's summary until details arrive. */
  datatype Shown = Summary(event: Event) | Full(details: EventDetails)

  /** `event.price`, which a bare summary and full details both carry. */
  function PriceOf(s: Shown): int {
    match s
    case Summary(e) => e.price
    case Full(d) => d.event.price
  }

  /** What pressing "checkout" does. */
  datatype CheckoutAction = SoldOutAlert | NavigateToCheckout(event: Shown)

  /** `getAvailabilityStatus()`: a summary has no `remaining`, and
      `undefined === 0` and `undefined < 10` are both false, so it reads as
      available; full details are classified by their remaining seats. */
  function AvailabilityOf(s: Shown): (a: Availability)
    ensures s.Summary? ==> a == Available
    ensures s.Full? ==> (a == SoldOut <==> s.details.remaining == 0)
    ensures s.Full? ==> (a == Limited <==> s.details.remaining != 0 && s.details.remaining < 10)
  {
    match s
    case Summary(_) => Available
    case Full(d) => Classify(d.remaining)
  }

  /** `handleCheckout()`: the alert when `remaining === 0`, else navigation
      carrying what is shown. */
  function CheckoutChoice(s: Shown): (a: CheckoutAction)
    ensures a.NavigateToCheckout? ==> a.event == s
  {
    if s.Full? && s.details.remaining == 0 then SoldOutAlert else NavigateToCheckout(s)
  }

  /** The checkout button refuses exactly the events the availability badge
      shows as sold out. */
  lemma CheckoutRefusedIffSoldOut(s: Shown)
    ensures CheckoutChoice(s) == SoldOutAlert <==> AvailabilityOf(s) == SoldOut
  {
  }

  /** When the remote answer is the API's, the badge agrees with the API's
      own `getEventAvailability` for the same id. */
  lemma RemoteBadgeMatchesApi(catalogue: seq<Event>, files: MockApi.DetailFiles, id: string,
                              draws: MockApi.Draws, delivered: bool)
    requires MockApi.ValidDraws(draws)
    requires MockApi.GetEventDetails(catalogue, files, id, draws, delivered).Ok?
    ensures var d := MockApi.GetEventDetails(catalogue, files, id, draws, delivered).value;
      AvailabilityOf(Full(d)) == MockApi.GetEventAvailability(catalogue, files, id, draws, delivered)
    ensures var d := MockApi.GetEventDetails(catalogue, files, id, draws, delivered).value;
      CheckoutChoice(Full(d)) == SoldOutAlert <==> MockApi.IsEventSoldOut(catalogue, files, id, draws, delivered)
  {
    MockApi.SoldOutIffAvailabilitySoldOut(catalogue, files, id, draws, delivered);
  }

  class EventDetailsScreen {
    /** `route.params.event`, the summary the screen was opened with. */
    const route: Event
    var shown: Shown
    var loading: bool
    var error: Option<string>
    var isFavorite: bool
    const service: DatabaseService

    constructor (route: Event, service: DatabaseService)
      ensures this.route == route && this.service == service
      ensures shown == Summary(route) && loading && error == None && !isFavorite
    {
      this.route := route;
      this.service := service;
      shown := Summary(route);
      loading := true;
      error := None;
      isFavorite := false;
    }

    /** `loadEventDetails()`, given the API's answer for the route's id. A
        remote success is shown and cached; a remote failure falls back to
        the cached row and, without one, shows "Event not found" and leaves
        the screen as it was. The favourite flag is read from the store
        unless the load failed. */
    method LoadEventDetails(remote: Result<EventDetails>, now: int)
      modifies this, service.store
      ensures service.store.isOpen == old(service.store.isOpen)
      ensures !loading
      ensures remote.Ok? ==>
        (shown == Full(remote.value) && error == None &&
         service.store.events == (if old(service.store.isOpen)
           then UpsertDetails(old(service.store.events), remote.value, now) else old(service.store.events)) &&
         (isFavorite <==> service.store.isOpen && FavoriteOf(service.store.events, route.id)))
      ensures remote.Ok? && remote.value.event.id == route.id ==>
        (isFavorite <==> old(service.store.isOpen) && FavoriteOf(old(service.store.events), route.id))
      ensures remote.Err? ==> service.store.events == old(service.store.events)
      ensures remote.Err? && old(service.store.isOpen) && route.id in old(service.store.events) ==>
        (shown == Full(DetailsOf(route.id, old(service.store.events)[route.id])) && error == None &&
         (isFavorite <==> FavoriteOf(old(service.store.events), route.id)))
      ensures remote.Err? && !(old(service.store.isOpen) && route.id in old(service.store.events)) ==>
        (shown == old(shown) && error == Some(EventNotFoundMessage) && isFavorite == old(isFavorite))
    {
      loading := true;
      error := None;
      if remote.Ok? {
        shown := Full(remote.value);
        service.SaveEventDetails(remote.value, now);
      } else {
        var cached := service.GetEventById(route.id);
        if cached.None? {
          error := Some(EventNotFoundMessage);
          loading := false;
          return;
        }
        shown := Full(cached.value);
      }
      isFavorite := service.IsFavorite(route.id);
      loading := false;
    }

    /** `handleFavoriteToggle()`: the flag becomes what the store answers. */
    method HandleFavoriteToggle()
      modifies this, service.store
      ensures service.store.isOpen == old(service.store.isOpen)
      ensures isFavorite <==>
        (old(service.store.isOpen) && route.id in old(service.store.events) &&
         !old(service.store.events)[route.id].isFavorite)
      ensures service.store.events ==
        if old(service.store.isOpen) && route.id in old(service.store.events)
        then Toggle(old(service.store.events), route.id) else old(service.store.events)
      ensures isFavorite <==> service.store.isOpen && FavoriteOf(service.store.events, route.id)
      ensures shown == old(shown) && loading == old(loading) && error == old(error)
    {
      isFavorite := service.ToggleFavorite(route.id);
    }
  }
}
