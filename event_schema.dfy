/** The Event record: a couple's ceremony script and its booking status. */
module EventSchema {
  import opened Common

  datatype EventStatus = Planned | Submitted | Approved | Completed | Canceled

  function EventStatusName(s: EventStatus): string
  {
    match s
    case Planned => "planned"
    case Submitted => "submitted"
    case Approved => "approved"
    case Completed => "completed"
    case Canceled => "canceled"
  }

  /** The enum validator of the status field. */
  function ParseEventStatus(t: string): (r: Option<EventStatus>)
    ensures r.Some? ==> EventStatusName(r.value) == t
  {
    if t == "planned" then Some(Planned)
    else if t == "submitted" then Some(Submitted)
    else if t == "approved" then Some(Approved)
    else if t == "completed" then Some(EventStatus.Completed)
    else if t == "canceled" then Some(Canceled)
    else None
  }

  lemma EventStatusNameRoundTrip(s: EventStatus)
    ensures ParseEventStatus(EventStatusName(s)) == Some(s)
  {
  }

  /** Title, description, ceremony type and owner are required; the officiant
      is optional. The two dozen optional ceremony-script texts and dates are
      kept together in `script`. The price is optional once stored (a bill may
      overwrite it with an absent amount); at creation it defaults to 0. */
  datatype Event = Event(
    title: string,
    description: string,
    ceremonyType: string,
    price: Option<int>,
    userId: Id,
    officiantId: Option<Id>,
    officiantName: Option<string>,
    status: EventStatus,
    script: map<string, string>,
    createdAt: Time)

  /** The required-field validator: a required string rejects "". */
  predicate Storable(e: Event)
  {
    e.title != "" && e.description != "" && e.ceremonyType != "" && e.userId != ""
  }

  /** The schema default for an event given only its required fields. */
  function BlankEvent(title: string, description: string, ceremonyType: string, userId: Id, now: Time): (e: Event)
    ensures e.status == Planned && e.price == Some(0)
    ensures e.officiantId.None? && e.officiantName.None?
    ensures title != "" && description != "" && ceremonyType != "" && userId != "" ==> Storable(e)
  {
    Event(title, description, ceremonyType, Some(0), userId, None, None, Planned, map[], now)
  }
}
