/** The ceremony (event) handlers and their coupling to agreements: a
    ceremony can only be created on the strength of an officiant-signed
    agreement, it is priced from that agreement, and submitting it marks an
    agreement used and resets the client's AgreementAccepted flag. */
module EventController {
  import opened Common
  import opened AgreementSchema
  import opened AgreementLifecycle
  import opened EventSchema
  import opened UserSchema
  import opened Store

  /** The fields of a create or update request; `None` is a field the body
      leaves out. The keys of `script` range over the optional ceremony-script
      paths of the event schema: strict mode drops any other body key before
      it reaches the store, so the model never carries one. */
  datatype EventFields = EventFields(
    title: Option<string>,
    description: Option<string>,
    ceremonyType: Option<string>,
    price: Option<int>,
    userId: Option<Id>,
    officiantId: Option<Id>,
    officiantName: Option<string>,
    status: Option<string>,
    script: map<string, string>)

  /** Some agreement of the client is signed by the officiant. */
  predicate HasSignedAgreement(agreements: map<Id, Agreement>, userId: Id)
  {
    exists k :: k in agreements && agreements[k].userId == userId && agreements[k].status == OfficiantSigned
  }

  /** The ceremony price an agreement implies. */
  function Price(a: Agreement): int
  {
    a.price + a.travelFee
  }

  /** findOneAndUpdate's write to the agreement it picked. */
  function MarkUsedAt(agreements: map<Id, Agreement>, k: Id, now: Time): (r: map<Id, Agreement>)
    requires k in agreements
    ensures r.Keys == agreements.Keys
    ensures r[k].status == Used && r[k].isUsedForCeremony && r[k].ceremonySubmittedAt == Some(now)
    ensures SameParties(agreements[k], r[k])
    ensures forall j :: j in agreements && j != k ==> r[j] == agreements[j]
  {
    agreements[k := After(agreements[k], Consume(now))]
  }

  /** A stored text path set to "" fails its required validator. */
  predicate GivenNonEmpty(f: Option<string>)
  {
    f.None? || f.value != ""
  }

  /** The event a create request saves, or None when the schema validators
      refuse it; the price is the one the handler computed, not the body's. */
  function NewEvent(f: EventFields, price: int, now: Time): (e: Option<Event>)
    ensures e.Some? <==>
      && Truthy(f.title) && Truthy(f.description) && Truthy(f.ceremonyType) && Truthy(f.userId)
      && (f.status.None? || ParseEventStatus(f.status.value).Some?)
    ensures e.Some? ==>
      && EventSchema.Storable(e.value) && e.value.price == Some(price)
      && e.value.userId == f.userId.value && e.value.officiantId == f.officiantId
      && (f.status.None? ==> e.value.status == Planned)
      && (f.status.Some? ==> EventStatusName(e.value.status) == f.status.value)
    ensures e.Some? ==> (e.value.status == Submitted <==> f.status == Some("submitted"))
  {
    if !Truthy(f.title) || !Truthy(f.description) || !Truthy(f.ceremonyType) || !Truthy(f.userId) then None
    else if f.status.Some? && ParseEventStatus(f.status.value).None? then None
    else
      var status := if f.status.Some? then ParseEventStatus(f.status.value).value else Planned;
      Some(Event(f.title.value, f.description.value, f.ceremonyType.value, Some(price), f.userId.value,
                 f.officiantId, f.officiantName, status, f.script, now))
  }

  /** createEvent. Check order: the three request fields, then a signed
      agreement of the client, then the schema validators. A submitted
      event also marks some agreement of the client used (`marked`), resets
      the client's flag and notifies the event's officiant; when its client id
      is not an ObjectId, the flag write throws after the save and the
      handler answers 500 with the event stored and nothing else done. */
  method CreateEvent(db: Db, f: EventFields, newId: Id, now: Time)
      returns (r: Reply, pricedBy: Option<Id>, marked: Option<Id>)
    requires newId !in db.events
    modifies db`events, db`agreements, db`users, db`notices
    ensures r != Ok ==> db.agreements == old(db.agreements) && db.users == old(db.users) && db.notices == old(db.notices)
    ensures r != Ok && r != ServerError ==> db.events == old(db.events)
    ensures !Truthy(f.title) || !Truthy(f.description) || !Truthy(f.userId) ==> r == MissingFields
    ensures (Truthy(f.title) && Truthy(f.description) && Truthy(f.userId)
             && !HasSignedAgreement(old(db.agreements), f.userId.value)) ==> r == NoSignedAgreement
    ensures (Truthy(f.title) && Truthy(f.description) && Truthy(f.userId)
             && HasSignedAgreement(old(db.agreements), f.userId.value)) ==>
      var valid := Truthy(f.ceremonyType) && (f.status.None? || ParseEventStatus(f.status.value).Some?);
      && (r == Ok <==> valid && !(f.status == Some("submitted") && !WellFormedId(f.userId.value)))
      && (r == ServerError <==> valid && f.status == Some("submitted") && !WellFormedId(f.userId.value))
      && (!valid ==> r == ValidationFailed)
    ensures r == Ok || r == ServerError ==>
      && pricedBy.Some? && pricedBy.value in old(db.agreements)
      && var priced := old(db.agreements)[pricedBy.value];
      && priced.userId == f.userId.value && priced.status == OfficiantSigned
      && NewEvent(f, Price(priced), now).Some?
      && var e := NewEvent(f, Price(priced), now).value;
      && db.events == old(db.events)[newId := e]
      && (r == ServerError <==> e.status == Submitted && !WellFormedId(e.userId))
      && (r == ServerError ==> marked.None?)
      && (r == Ok && e.status == Submitted ==>
            && marked.Some? && marked.value in old(db.agreements)
            && old(db.agreements)[marked.value].userId == e.userId
            && db.agreements == MarkUsedAt(old(db.agreements), marked.value, now)
            && db.users == SetAgreementAccepted(old(db.users), e.userId, false)
            && db.notices == old(db.notices) + [Notice(e.officiantId, CeremonySubmittedMsg(e.title))])
      && (e.status != Submitted ==>
            && marked.None? && db.agreements == old(db.agreements)
            && db.users == old(db.users) && db.notices == old(db.notices))
    ensures r == Ok || r == MissingFields || r == NoSignedAgreement || r == ValidationFailed || r == ServerError
  {
    pricedBy, marked := None, None;
    if !Truthy(f.title) || !Truthy(f.description) || !Truthy(f.userId) {
      return MissingFields, pricedBy, marked;
    }
    var userId := f.userId.value;
    if !HasSignedAgreement(db.agreements, userId) {
      return NoSignedAgreement, pricedBy, marked;
    }
    var k :| k in db.agreements && db.agreements[k].userId == userId && db.agreements[k].status == OfficiantSigned;
    pricedBy := Some(k);
    var eventPrice := db.agreements[k].price + db.agreements[k].travelFee;
    var saved := NewEvent(f, eventPrice, now);
    if saved.None? {
      return ValidationFailed, pricedBy, marked;
    }
    var e := saved.value;
    db.events := db.events[newId := e];
    r := Ok;
    if e.status == Submitted {
      r, marked := SubmitCreated(db, e, now);
    }
  }

  /** The submission step of createEvent, after the event is saved: the
      client's flag is reset, the agreement lookup on the client alone marks
      one used and the officiant is notified. The flag write casts the client
      id first, so a client id that is not an ObjectId answers 500 and does
      none of the three. The signed agreement createEvent found guarantees
      the lookup a match, so its not-found reply cannot occur. */
  method SubmitCreated(db: Db, e: Event, now: Time) returns (r: Reply, marked: Option<Id>)
    requires HasSignedAgreement(db.agreements, e.userId)
    modifies db`agreements, db`users, db`notices
    ensures r == Ok <==> WellFormedId(e.userId)
    ensures r != Ok ==>
      && r == ServerError && marked.None? && db.agreements == old(db.agreements)
      && db.users == old(db.users) && db.notices == old(db.notices)
    ensures r == Ok ==>
      && marked.Some? && marked.value in old(db.agreements)
      && old(db.agreements)[marked.value].userId == e.userId
      && db.agreements == MarkUsedAt(old(db.agreements), marked.value, now)
      && db.users == SetAgreementAccepted(old(db.users), e.userId, false)
      && db.notices == old(db.notices) + [Notice(e.officiantId, CeremonySubmittedMsg(e.title))]
  {
    marked := None;
    if !WellFormedId(e.userId) {
      return ServerError, marked;
    }
    if e.userId in db.users {
      db.users := db.users[e.userId := db.users[e.userId].(agreementAccepted := false)];
    }
    var j :| j in db.agreements && db.agreements[j].userId == e.userId;
    db.agreements := db.agreements[j := MarkUsed(db.agreements[j], now)];
    marked := Some(j);
    db.notices := db.notices + [Notice(e.officiantId, CeremonySubmittedMsg(e.title))];
    r := Ok;
  }

  /** With one agreement per client, submitting a ceremony consumes the
      signed agreement: a second ceremony is then refused. */
  lemma SubmissionConsumesOnlyAgreement(agreements: map<Id, Agreement>, userId: Id, k: Id, now: Time)
    requires k in agreements && agreements[k].userId == userId
    requires forall j :: j in agreements && agreements[j].userId == userId ==> j == k
    ensures !HasSignedAgreement(MarkUsedAt(agreements, k, now), userId)
  {
  }

  /** The submission lookup matches on the client only, so with two
      agreements it may mark the unsigned one and leave the signed one
      ready to back another ceremony. */
  lemma SignedAgreementMaySurviveSubmission(signed: Agreement, other: Agreement, now: Time)
    requires signed.status == OfficiantSigned && other.userId == signed.userId
    ensures var m := map["a1" := signed, "a2" := other];
      HasSignedAgreement(MarkUsedAt(m, "a2", now), signed.userId)
  {
    var m := map["a1" := signed, "a2" := other];
    assert MarkUsedAt(m, "a2", now)["a1"] == signed;
  }

  /** The agreement lookup of updateEvent: the client's agreement with the
      event's officiant. An event without an officiant leaves that key out
      of the filter, which then matches any agreement of the client. */
  predicate PairMatch(a: Agreement, userId: Id, officiantId: Option<Id>)
  {
    a.userId == userId && KeyMatches(officiantId, a.officiantId)
  }

  /** The update write with runValidators: None when a required path is set
      to "" or the status is not in the enum; otherwise every given path
      replaces the stored one. */
  function Patched(e: Event, p: EventFields): (r: Option<Event>)
    ensures r.Some? <==>
      && GivenNonEmpty(p.title) && GivenNonEmpty(p.description)
      && GivenNonEmpty(p.ceremonyType) && GivenNonEmpty(p.userId)
      && (p.status.None? || ParseEventStatus(p.status.value).Some?)
    ensures r.Some? ==>
      && (p.status.None? ==> r.value.status == e.status)
      && (p.status.Some? ==> EventStatusName(r.value.status) == p.status.value)
      && (p.price.Some? ==> r.value.price == p.price)
      && (p.price.None? ==> r.value.price == e.price)
      && r.value.createdAt == e.createdAt
      && (EventSchema.Storable(e) ==> EventSchema.Storable(r.value))
    ensures r.Some? ==>
      && r.value.title == (if p.title.Some? then p.title.value else e.title)
      && r.value.description == (if p.description.Some? then p.description.value else e.description)
      && r.value.ceremonyType == (if p.ceremonyType.Some? then p.ceremonyType.value else e.ceremonyType)
      && r.value.userId == (if p.userId.Some? then p.userId.value else e.userId)
      && (p.officiantId.Some? ==> r.value.officiantId == p.officiantId)
      && (p.officiantId.None? ==> r.value.officiantId == e.officiantId)
      && (p.officiantName.Some? ==> r.value.officiantName == p.officiantName)
      && (p.officiantName.None? ==> r.value.officiantName == e.officiantName)
    ensures r.Some? ==> forall k :: k in r.value.script <==> k in e.script || k in p.script
    ensures r.Some? ==> forall k :: k in p.script ==> r.value.script[k] == p.script[k]
    ensures r.Some? ==> forall k :: k in e.script && k !in p.script ==> r.value.script[k] == e.script[k]
  {
    if !GivenNonEmpty(p.title) || !GivenNonEmpty(p.description) || !GivenNonEmpty(p.ceremonyType)
       || !GivenNonEmpty(p.userId) then None
    else if p.status.Some? && ParseEventStatus(p.status.value).None? then None
    else
      Some(e.(
        title := if p.title.Some? then p.title.value else e.title,
        description := if p.description.Some? then p.description.value else e.description,
        ceremonyType := if p.ceremonyType.Some? then p.ceremonyType.value else e.ceremonyType,
        price := if p.price.Some? then p.price else e.price,
        userId := if p.userId.Some? then p.userId.value else e.userId,
        officiantId := if p.officiantId.Some? then p.officiantId else e.officiantId,
        officiantName := if p.officiantName.Some? then p.officiantName else e.officiantName,
        status := if p.status.Some? then ParseEventStatus(p.status.value).value else e.status,
        script := e.script + p.script))
  }

  /** An empty update leaves a stored event as it is. */
  lemma PatchedEmptyIsIdentity(e: Event)
    ensures Patched(e, EventFields(None, None, None, None, None, None, None, None, map[])) == Some(e)
  {
    assert e.script + map[] == e.script;
  }

  /** Whether an update moves the event into `submitted`. */
  predicate Entering(e: Event, p: EventFields)
  {
    p.status == Some("submitted") && e.status != Submitted
  }

  /** The notifications an update sends: the officiant's on a move into
      `submitted`, the client's when the result is `completed`. */
  function UpdateNotices(entering: bool, e: Event): (ns: seq<Notice>)
    ensures |ns| <= 2
    ensures entering ==> Notice(e.officiantId, CeremonySubmittedMsg(e.title)) in ns
    ensures e.status == EventStatus.Completed <==> Notice(Some(e.userId), CeremonyCompletedMsg(e.title)) in ns
  {
    (if entering then [Notice(e.officiantId, CeremonySubmittedMsg(e.title))] else [])
    + (if e.status == EventStatus.Completed then [Notice(Some(e.userId), CeremonyCompletedMsg(e.title))] else [])
  }

  /** The repricing step of updateEvent: on a move into `submitted`, the
      update's price becomes that of some (client, officiant) agreement
      (`pricedBy`), if there is one; otherwise the update is left as it is. */
  method Reprice(db: Db, ex: Event, p: EventFields) returns (q: EventFields, pricedBy: Option<Id>)
    ensures pricedBy.Some? ==>
      && Entering(ex, p) && pricedBy.value in db.agreements
      && PairMatch(db.agreements[pricedBy.value], ex.userId, ex.officiantId)
      && q == p.(price := Some(Price(db.agreements[pricedBy.value])))
    ensures pricedBy.None? ==> q == p
    ensures pricedBy.None? && Entering(ex, p) ==>
      forall k :: k in db.agreements ==> !PairMatch(db.agreements[k], ex.userId, ex.officiantId)
  {
    q, pricedBy := p, None;
    if p.status == Some("submitted") && ex.status != Submitted {
      if exists k :: k in db.agreements && PairMatch(db.agreements[k], ex.userId, ex.officiantId) {
        var k :| k in db.agreements && PairMatch(db.agreements[k], ex.userId, ex.officiantId);
        pricedBy := Some(k);
        q := q.(price := Some(db.agreements[k].price + db.agreements[k].travelFee));
      }
    }
  }

  /** What a move into `submitted` does after the event is written: the
      client's flag is reset and, when the event has an officiant, some
      matching agreement is marked used (`marked`); the officiant is notified.
      The flag write casts the client id first: when it is not an ObjectId
      the handler answers 500 and none of the three happens. */
  method SubmissionEffects(db: Db, e: Event, now: Time) returns (r: Reply, marked: Option<Id>)
    modifies db`agreements, db`users, db`notices
    ensures r == Ok <==> WellFormedId(e.userId)
    ensures r != Ok ==>
      && r == ServerError && marked.None? && db.agreements == old(db.agreements)
      && db.users == old(db.users) && db.notices == old(db.notices)
    ensures r == Ok ==> db.users == SetAgreementAccepted(old(db.users), e.userId, false)
    ensures marked.Some? ==>
      && Truthy(e.officiantId) && marked.value in old(db.agreements)
      && PairMatch(old(db.agreements)[marked.value], e.userId, e.officiantId)
      && db.agreements == MarkUsedAt(old(db.agreements), marked.value, now)
    ensures marked.None? ==> db.agreements == old(db.agreements)
    ensures r == Ok && marked.None? && Truthy(e.officiantId) ==>
      forall k :: k in old(db.agreements) ==> !PairMatch(old(db.agreements)[k], e.userId, e.officiantId)
    ensures r == Ok ==> db.notices == old(db.notices) + [Notice(e.officiantId, CeremonySubmittedMsg(e.title))]
  {
    marked := None;
    if !WellFormedId(e.userId) {
      return ServerError, marked;
    }
    if e.userId in db.users {
      db.users := db.users[e.userId := db.users[e.userId].(agreementAccepted := false)];
    }
    if Truthy(e.officiantId) {
      if exists k :: k in db.agreements && PairMatch(db.agreements[k], e.userId, e.officiantId) {
        var k :| k in db.agreements && PairMatch(db.agreements[k], e.userId, e.officiantId);
        db.agreements := db.agreements[k := MarkUsed(db.agreements[k], now)];
        marked := Some(k);
      }
    }
    db.notices := db.notices + [Notice(e.officiantId, CeremonySubmittedMsg(e.title))];
    r := Ok;
  }

  /** updateEvent: not found, then the repricing, then the validated write,
      then the submission effects and the completion notice. A move into
      `submitted` with a client id that is not an ObjectId answers 500 after
      the write, with no effects and no notice. */
  method UpdateEvent(db: Db, id: Id, p: EventFields, now: Time)
      returns (r: Reply, pricedBy: Option<Id>, marked: Option<Id>)
    modifies db`events, db`agreements, db`users, db`notices
    ensures r != Ok ==> db.agreements == old(db.agreements) && db.users == old(db.users) && db.notices == old(db.notices)
    ensures r != Ok && r != ServerError ==> db.events == old(db.events)
    ensures id !in old(db.events) ==> r == NotFound
    ensures id in old(db.events) ==>
      var ex := old(db.events)[id];
      && (pricedBy.Some? ==>
            && Entering(ex, p) && pricedBy.value in old(db.agreements)
            && PairMatch(old(db.agreements)[pricedBy.value], ex.userId, ex.officiantId))
      && (pricedBy.None? && Entering(ex, p) ==>
            forall k :: k in old(db.agreements) ==> !PairMatch(old(db.agreements)[k], ex.userId, ex.officiantId))
      && var q := if pricedBy.Some? then p.(price := Some(Price(old(db.agreements)[pricedBy.value]))) else p;
      && (Patched(ex, q).None? ==> r == ValidationFailed)
      && (Patched(ex, q).Some? ==>
            var e := Patched(ex, q).value;
            && db.events == old(db.events)[id := e]
            && (r == Ok <==> !(Entering(ex, p) && !WellFormedId(e.userId)))
            && (r != Ok ==> r == ServerError && marked.None?)
            && (r == Ok && Entering(ex, p) ==> db.users == SetAgreementAccepted(old(db.users), e.userId, false))
            && (!Entering(ex, p) ==> db.users == old(db.users) && marked.None?)
            && (marked.Some? ==>
                  && Truthy(e.officiantId) && marked.value in old(db.agreements)
                  && PairMatch(old(db.agreements)[marked.value], e.userId, e.officiantId)
                  && db.agreements == MarkUsedAt(old(db.agreements), marked.value, now))
            && (marked.None? ==> db.agreements == old(db.agreements))
            && (r == Ok && marked.None? && Entering(ex, p) && Truthy(e.officiantId) ==>
                  forall k :: k in old(db.agreements) ==> !PairMatch(old(db.agreements)[k], e.userId, e.officiantId))
            && (r == Ok ==> db.notices == old(db.notices) + UpdateNotices(Entering(ex, p), e)))
  {
    pricedBy, marked := None, None;
    if id !in db.events {
      return NotFound, pricedBy, marked;
    }
    var ex := db.events[id];
    var updates;
    updates, pricedBy := Reprice(db, ex, p);
    var written := Patched(ex, updates);
    if written.None? {
      return ValidationFailed, pricedBy, marked;
    }
    var e := written.value;
    db.events := db.events[id := e];
    var entering := e.status == Submitted && ex.status != Submitted;
    assert entering == Entering(ex, p);
    if entering {
      r, marked := SubmissionEffects(db, e, now);
      if r != Ok {
        return r, pricedBy, marked;
      }
    }
    if e.status == EventStatus.Completed {
      db.notices := db.notices + [Notice(Some(e.userId), CeremonyCompletedMsg(e.title))];
    }
    r := Ok;
  }

  /** assignOfficiant. Check order: both request fields, the event, the
      officiant's account, its role, its availability. The user's
      `currentOfficiant` is not a schema path, so the user record is saved
      unchanged. Looking the client up casts the event's client id after the
      event is saved: when it is not an ObjectId the reply is 500 and neither
      notice is sent. */
  method AssignOfficiant(db: Db, eventId: Id, officiantId: Option<Id>, officiantName: Option<string>)
      returns (r: Reply)
    modifies db`events, db`notices
    ensures r != Ok ==> db.notices == old(db.notices)
    ensures r != Ok && r != ServerError ==> db.events == old(db.events)
    ensures !Truthy(officiantId) || !Truthy(officiantName) ==> r == MissingFields
    ensures Truthy(officiantId) && Truthy(officiantName) ==>
      var o := officiantId.value;
      && (eventId !in old(db.events) ==> r == NotFound)
      && (eventId in old(db.events) && o !in db.users ==> r == OfficiantNotFound)
      && (eventId in old(db.events) && o in db.users && db.users[o].role != Officiant ==> r == NotAnOfficiant)
      && ((eventId in old(db.events) && o in db.users && db.users[o].role == Officiant
           && !db.users[o].availability) ==> r == OfficiantUnavailable)
      && var accepted := eventId in old(db.events) && o in db.users && db.users[o].role == Officiant
                         && db.users[o].availability;
      && (r == Ok <==> accepted && WellFormedId(old(db.events)[eventId].userId))
      && (r == ServerError <==> accepted && !WellFormedId(old(db.events)[eventId].userId))
      && (r == Ok || r == ServerError ==>
            db.events == old(db.events)[eventId := old(db.events)[eventId].(officiantId := officiantId,
                                                                            officiantName := officiantName)])
      && (r == Ok ==>
            var e := old(db.events)[eventId].(officiantId := officiantId, officiantName := officiantName);
            db.notices == old(db.notices) + [Notice(officiantId, EventAssignmentMsg(e.title))]
                 + (if e.userId != "" then [Notice(Some(e.userId), OfficiantAssignedMsg(officiantName.value, e.title))] else []))
  {
    if !Truthy(officiantId) || !Truthy(officiantName) {
      return MissingFields;
    }
    if eventId !in db.events {
      return NotFound;
    }
    var o := officiantId.value;
    if o !in db.users {
      return OfficiantNotFound;
    }
    var officiant := db.users[o];
    if officiant.role != Officiant {
      return NotAnOfficiant;
    }
    if !officiant.availability {
      return OfficiantUnavailable;
    }
    var e := db.events[eventId];
    e := e.(officiantId := officiantId);
    e := e.(officiantName := officiantName);
    db.events := db.events[eventId := e];
    if !WellFormedId(e.userId) {
      return ServerError;
    }
    db.notices := db.notices + [Notice(officiantId, EventAssignmentMsg(e.title))];
    if e.userId != "" {
      db.notices := db.notices + [Notice(Some(e.userId), OfficiantAssignedMsg(officiantName.value, e.title))];
    }
    r := Ok;
  }

  /** getEventsByRole: the officiant's events for the role "officiant", the
      client's events for every other role. */
  function EventsByRole(events: map<Id, Event>, id: Id, role: string): (ids: set<Id>)
    ensures ids <= events.Keys
    ensures role == "officiant" ==>
      forall k :: k in events ==> (k in ids <==> events[k].officiantId == Some(id))
    ensures role != "officiant" ==>
      forall k :: k in events ==> (k in ids <==> events[k].userId == id)
  {
    if role == "officiant" then set k | k in events && events[k].officiantId == Some(id)
    else set k | k in events && events[k].userId == id
  }

  /** Every role other than "officiant" is treated as a client: an admin
      listing by role sees the events it owns, not those it officiates. */
  lemma AdminSeesOwnedEvents(events: map<Id, Event>, id: Id)
    ensures EventsByRole(events, id, "admin") == EventsByRole(events, id, "user")
  {
  }
}
