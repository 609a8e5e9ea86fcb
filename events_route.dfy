/**
 * The events API route: GET with an optional inclusive date range, and
 * POST, over a module-level table of events. An event's date is the
 * timestamp of its ISO string.
 */
module EventsRoute {
  import opened Wrappers
  import opened Text
  import opened Dates
  import opened Collections
  import opened Http

  datatype Event = Event(id: string, title: string, description: string, date: int)

  /** The fields of a POST body; an absent or null field is `None`. */
  datatype EventBody = EventBody(title: Option<string>, description: Option<string>, date: Option<DateText>)

  /** The table as the process starts, with the sample times read as UTC. */
  const SampleEvents: seq<Event> := [
    Event("1", "Team Meeting", "Weekly team sync", 1742292000000),
    Event("2", "Project Deadline", "Submit final deliverables", 1742662800000),
    Event("3", "Client Presentation", "Present quarterly results", 1742913000000)
  ]

  /** Whether an event falls inside the inclusive range; a bound that is not a date admits nothing. */
  function Within(start: Instant, end: Instant): Event -> bool {
    (e: Event) => AtLeast(Valid(e.date), start) && AtMost(Valid(e.date), end)
  }

  /** What GET answers: every event unless both bounds are given, else the events inside the inclusive range. */
  function ListEvents(events: seq<Event>, startDate: Option<DateText>, endDate: Option<DateText>): (r: seq<Event>)
    ensures !(Given(startDate) && Given(endDate)) ==> r == events
    ensures Given(startDate) && Given(endDate) ==>
              var lo, hi := startDate.value.parsed, endDate.value.parsed;
              forall e :: e in r <==> e in events && lo.Valid? && hi.Valid? && lo.ms <= e.date <= hi.ms
    ensures |r| <= |events|
  {
    if Given(startDate) && Given(endDate) then Filter(events, Within(startDate.value.parsed, endDate.value.parsed))
    else events
  }

  /** Listing keeps the table's order: the answer for a concatenation is the answers for its parts, concatenated. */
  lemma ListEventsKeepsOrder(a: seq<Event>, b: seq<Event>, startDate: Option<DateText>, endDate: Option<DateText>)
    ensures ListEvents(a + b, startDate, endDate) == ListEvents(a, startDate, endDate) + ListEvents(b, startDate, endDate)
  {
    if Given(startDate) && Given(endDate) {
      FilterAppend(a, b, Within(startDate.value.parsed, endDate.value.parsed));
    }
  }

  /** A bound that is not a date makes every comparison false, so nothing is listed. */
  lemma InvalidBoundListsNothing(events: seq<Event>, startDate: Option<DateText>, endDate: Option<DateText>)
    requires Given(startDate) && Given(endDate)
    requires startDate.value.parsed.InvalidDate? || endDate.value.parsed.InvalidDate?
    ensures ListEvents(events, startDate, endDate) == []
  {
  }

  /** A narrower range never lists an event a wider one leaves out. */
  lemma NarrowerRangeListsFewer(events: seq<Event>, s1: DateText, e1: DateText, s2: DateText, e2: DateText)
    requires s1.text != "" && e1.text != "" && s2.text != "" && e2.text != ""
    requires s1.parsed.Valid? && e1.parsed.Valid? && s2.parsed.Valid? && e2.parsed.Valid?
    requires s1.parsed.ms <= s2.parsed.ms && e2.parsed.ms <= e1.parsed.ms
    ensures forall e :: e in ListEvents(events, Some(s2), Some(e2)) ==> e in ListEvents(events, Some(s1), Some(e1))
  {
  }

  /** The response and table after POST with a server-chosen `freshId`. */
  function CreateEvent(events: seq<Event>, req: Request<EventBody>, freshId: string): (o: Handled<Event, Event>)
    ensures req.Unparseable? ==> o == Handled(Failure(400, InvalidBody), events)
    ensures req.Json? && (!Truthy(req.body.title) || !Given(req.body.date)) ==>
              o == Handled(Failure(400, "Title and date are required"), events)
    ensures req.Json? && Truthy(req.body.title) && IsoThrows(req.body.date) ==>
              o == Handled(Failure(400, InvalidBody), events)
    ensures o.response.Failure? <==>
              req.Unparseable? || !Truthy(req.body.title) || !Given(req.body.date) || IsoThrows(req.body.date)
    ensures o.response.Failure? ==> o.table == events
    ensures o.response.Success? ==>
              var e := o.response.value;
              && o.response.status == 201
              && o.table == events + [e]
              && e.id == freshId
              && e.title == req.body.title.value && e.title != ""
              && e.description == req.body.description.GetOr("")
              && req.body.date.value.parsed == Valid(e.date)
  {
    match req
    case Unparseable => Handled(Failure(400, InvalidBody), events)
    case Json(body) =>
      if !Truthy(body.title) || !Given(body.date) then Handled(Failure(400, "Title and date are required"), events)
      else if IsoThrows(body.date) then Handled(Failure(400, InvalidBody), events)
      else
        var e := Event(freshId, body.title.value, body.description.GetOr(""), body.date.value.parsed.ms);
        Handled(Success(201, e), events + [e])
  }

  /** A created event is listed by every range that contains its date. */
  lemma CreatedEventIsListed(events: seq<Event>, body: EventBody, freshId: string, startDate: DateText, endDate: DateText)
    requires CreateEvent(events, Json(body), freshId).response.Success?
    requires startDate.text != "" && endDate.text != ""
    requires startDate.parsed.Valid? && endDate.parsed.Valid?
    requires body.date.Some? && body.date.value.parsed.Valid?
    requires startDate.parsed.ms <= body.date.value.parsed.ms <= endDate.parsed.ms
    ensures CreateEvent(events, Json(body), freshId).response.value
            in ListEvents(CreateEvent(events, Json(body), freshId).table, Some(startDate), Some(endDate))
  {
    var o := CreateEvent(events, Json(body), freshId);
    assert o.response.value in o.table;
  }

  /** The route's module-level table. */
  class EventsTable {
    var events: seq<Event>

    constructor ()
      ensures events == SampleEvents
    {
      events := SampleEvents;
    }

    /** GET: filter a copy by the `startDate` and `endDate` query parameters; the table is only read. */
    method Get(startDate: Option<DateText>, endDate: Option<DateText>) returns (resp: Response<seq<Event>>)
      ensures resp == Success(200, ListEvents(events, startDate, endDate))
    {
      var filteredEvents := events;
      if Given(startDate) && Given(endDate) {
        filteredEvents := Filter(events, Within(startDate.value.parsed, endDate.value.parsed));
      }
      resp := Success(200, filteredEvents);
    }

    /** POST: validate, build the event, push it. */
    method Post(req: Request<EventBody>, freshId: string) returns (resp: Response<Event>)
      modifies this
      ensures Handled(resp, events) == CreateEvent(old(events), req, freshId)
    {
      if req.Unparseable? {
        return Failure(400, InvalidBody);
      }
      var body := req.body;
      if !Truthy(body.title) || !Given(body.date) {
        return Failure(400, "Title and date are required");
      }
      if IsoThrows(body.date) {
        return Failure(400, InvalidBody);
      }
      var newEvent := Event(freshId, body.title.value, body.description.GetOr(""), body.date.value.parsed.ms);
      events := events + [newEvent];
      resp := Success(201, newEvent);
    }
  }
}
