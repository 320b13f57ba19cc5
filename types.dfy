/** Shared value types of the event catalogue: the records the remote API, the
    local cache and the screens exchange, and the error wrappers used in place
    of JavaScript exceptions. */
module Types {

  datatype Option<+T> = None | Some(value: T) {
    function GetOr(default: T): T {
      match this
      case Some(v) => v
      case None => default
    }
  }

  /** A promise that either resolves with a value or rejects with an Error whose
      message is kept. */
  datatype Result<+T> = Ok(value: T) | Err(message: string)

  /** A promise of `void`. */
  datatype Outcome = Done | Failed(message: string)

  // Error messages thrown by the store and the remote API.
  const NotInitializedMessage: string := "Database not initialized"
  const EventNotFoundMessage: string := "Event not found"
  const NetworkFailureMessage: string := "Network request failed. Please try again."

  /** The closed set of event categories. */
  datatype Category = Tech | Business | Health | Arts | Education

  /** The category argument of a catalogue query: 'All' (or absent) means no filter. */
  datatype CategoryFilter = All | Only(category: Category)

  function CategoryName(c: Category): string {
    match c
    case Tech => "Tech"
    case Business => "Business"
    case Health => "Health"
    case Arts => "Arts"
    case Education => "Education"
  }

  predicate CategoryMatches(filter: CategoryFilter, c: Category) {
    filter.All? || filter.category == c
  }

  /** The summary projection of an event, as listed on the dashboard. */
  datatype Event = Event(
    id: string,
    title: string,
    category: Category,
    startsAt: string,
    city: string,
    price: int,
    thumbnail: string)

  /** The detail projection: the summary plus the fields a detail fetch adds. */
  datatype EventDetails = EventDetails(
    event: Event,
    description: string,
    venue: string,
    speakers: seq<string>,
    capacity: int,
    remaining: int)

  /** One page of events as the local cache answers it. */
  datatype EventPage = EventPage(events: seq<Event>, hasMore: bool, totalCount: int)

  const EmptyPage: EventPage := EventPage([], false, 0)

  /** One page of events as the remote API answers it. */
  datatype EventsResponse = EventsResponse(events: seq<Event>, totalCount: int, page: int, hasMore: bool)

  function Ids(events: seq<Event>): (ids: seq<string>)
    ensures |ids| == |events|
    ensures forall i :: 0 <= i < |events| ==> ids[i] == events[i].id
  {
    if events == [] then [] else [events[0].id] + Ids(events[1..])
  }

  /** Ticket availability as the detail screen and the API classify it. */
  datatype Availability = Available | Limited | SoldOut

  /** Sold out at zero remaining seats, limited below ten, available otherwise. */
  function Classify(remaining: int): (a: Availability)
    ensures a == SoldOut <==> remaining == 0
    ensures a == Limited <==> remaining != 0 && remaining < 10
    ensures a == Available <==> remaining >= 10
  {
    if remaining == 0 then SoldOut
    else if remaining < 10 then Limited
    else Available
  }

  /** Concatenation regroups freely. */
  lemma AppendAssociates<T>(x: seq<T>, y: seq<T>, z: seq<T>)
    ensures x + (y + z) == (x + y) + z
  {
  }

  /** A non-empty sequence is its head followed by its tail. */
  lemma HeadTail<T>(s: seq<T>)
    requires s != []
    ensures s == [s[0]] + s[1..]
  {
  }

  /** A prefix splits at any point below its end. */
  lemma PrefixSplit<T>(s: seq<T>, lo: int, hi: int)
    requires 0 <= lo <= hi <= |s|
    ensures s[..hi] == s[..lo] + s[lo..hi]
  {
  }
}
