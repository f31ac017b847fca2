/** The agreement request handlers over the shared store. Each handler looks
    the record up, checks its gate, writes the record field by field and
    sends its notification; its contract ties the new store to the pure
    lifecycle step of AgreementLifecycle, so the lemmas proved there about
    runs of steps hold of runs of handlers. */
module AgreementController {
  import opened Common
  import opened AgreementSchema
  import opened AgreementLifecycle
  import opened UserSchema
  import opened Store

  /** createAgreement: the requester becomes the officiant. A missing or
      empty client id, or an empty requester id, fails the required-field
      validator and nothing is stored. */
  method CreateAgreement(db: Db, requester: Id, userId: Option<Id>, d: Details, newId: Id, now: Time)
      returns (r: Reply)
    requires newId !in db.agreements
    modifies db`agreements, db`notices
    ensures r == Ok <==> Truthy(userId) && requester != ""
    ensures r == Ok ==>
      && db.agreements == old(db.agreements)[newId := Drafted(userId.value, requester, d, now)]
      && Storable(db.agreements[newId])
      && db.notices == old(db.notices) + [Notice(userId, AgreementCreatedMsg)]
    ensures r != Ok ==>
      r == ValidationFailed && db.agreements == old(db.agreements) && db.notices == old(db.notices)
  {
    if !Truthy(userId) || requester == "" {
      return ValidationFailed;
    }
    var a := BlankAgreement(userId.value, requester, now);
    a := a.(officiantName := d.officiantName, eventDate := d.eventDate);
    a := a.(partner1Name := d.partner1Name, partner2Name := d.partner2Name, location := d.location);
    if d.price.Some? {
      a := a.(price := d.price.value);
    }
    a := a.(travelFee := OrZero(d.travelFee));
    a := a.(status := OfficiantFilled);
    db.agreements := db.agreements[newId := a];
    db.notices := db.notices + [Notice(userId, AgreementCreatedMsg)];
    r := Ok;
  }

  /** The two parties an agreement names. */
  datatype Side = CoupleSide | OfficiantSide

  /** The party of `a` on one side. */
  function PartyOf(a: Agreement, side: Side): Id
  {
    match side
    case CoupleSide => a.userId
    case OfficiantSide => a.officiantId
  }

  /** The ids of every agreement naming `id` on one side. */
  function AgreementsOf(agreements: map<Id, Agreement>, side: Side, id: Id): (ids: set<Id>)
    ensures ids <= agreements.Keys
    ensures forall k :: k in agreements ==> (k in ids <==> PartyOf(agreements[k], side) == id)
  {
    set k | k in agreements && PartyOf(agreements[k], side) == id
  }

  /** getAgreementByUserId: some agreement of the client (which one is the
      store's choice), or not found exactly when the client has none. */
  method GetAgreementByUserId(db: Db, userId: Id) returns (r: Option<Id>)
    ensures r.Some? ==> r.value in AgreementsOf(db.agreements, CoupleSide, userId)
    ensures r.None? <==> AgreementsOf(db.agreements, CoupleSide, userId) == {}
  {
    var ids := AgreementsOf(db.agreements, CoupleSide, userId);
    if ids == {} {
      return None;
    }
    var k :| k in ids;
    r := Some(k);
  }

  /** One row of the officiant's agreement list: the client's display name and email. */
  datatype Row = Row(agreement: Agreement, userName: string, userEmail: string)

  /** `user?.name || "Unknown"` and `user?.email || ""`. */
  function ClientOf(users: map<Id, User>, a: Agreement): (row: Row)
    ensures row.agreement == a && row.userName != ""
    ensures a.userId in users && Truthy(Attr(users[a.userId], "name")) ==>
              row.userName == Attr(users[a.userId], "name").value
    ensures a.userId !in users ==> row.userName == "Unknown" && row.userEmail == ""
    ensures a.userId in users ==> row.userEmail == users[a.userId].email
  {
    if a.userId !in users then Row(a, "Unknown", "")
    else
      var u := users[a.userId];
      Row(a, if Truthy(Attr(u, "name")) then Attr(u, "name").value else "Unknown", u.email)
  }

  /** getAllAgreementsByOfficiantId: the officiant's own agreements, each
      with its client. Each client lookup casts the stored client id, so a
      single agreement whose client id is not an ObjectId fails the whole
      listing (None, answered with 500). */
  function OfficiantListing(agreements: map<Id, Agreement>, users: map<Id, User>, officiantId: Id)
      : (rows: Option<map<Id, Row>>)
    ensures rows.None? <==>
      exists k :: k in agreements && agreements[k].officiantId == officiantId && !WellFormedId(agreements[k].userId)
    ensures rows.Some? ==> rows.value.Keys == AgreementsOf(agreements, OfficiantSide, officiantId)
    ensures rows.Some? ==> forall k :: k in rows.value ==>
              rows.value[k].agreement == agreements[k] && rows.value[k].agreement.officiantId == officiantId
              && WellFormedId(rows.value[k].agreement.userId) && rows.value[k].userName != ""
  {
    var ids := AgreementsOf(agreements, OfficiantSide, officiantId);
    if exists k :: k in ids && !WellFormedId(agreements[k].userId) then None
    else Some(map k | k in ids :: ClientOf(users, agreements[k]))
  }

  /** updateAgreementDetails: not found, the edit-lock, or the details write. */
  method UpdateAgreementDetails(db: Db, id: Id, d: Details, now: Time) returns (r: Reply)
    modifies db`agreements, db`notices
    ensures id !in old(db.agreements) ==>
      r == NotFound && db.agreements == old(db.agreements) && db.notices == old(db.notices)
    ensures id in old(db.agreements) ==>
      var a := old(db.agreements)[id];
      match Apply(a, Fill(d, now))
      case Advanced(next) =>
        && r == Ok && db.agreements == old(db.agreements)[id := next]
        && db.notices == old(db.notices) + [Notice(Some(a.userId), DetailsFilledMsg)]
      case Refused(why) =>
        r == why && db.agreements == old(db.agreements) && db.notices == old(db.notices)
  {
    if id !in db.agreements {
      return NotFound;
    }
    var a := db.agreements[id];
    if Locked(a.status) {
      return EditLocked;
    }
    a := a.(officiantName := OrElse(d.officiantName, a.officiantName));
    a := a.(eventDate := OrElse(d.eventDate, a.eventDate));
    a := a.(partner1Name := OrElse(d.partner1Name, a.partner1Name));
    a := a.(partner2Name := OrElse(d.partner2Name, a.partner2Name));
    a := a.(location := OrElse(d.location, a.location));
    if d.price.Some? {
      a := a.(price := d.price.value);
    }
    if d.travelFee.Some? {
      a := a.(travelFee := d.travelFee.value);
    }
    a := a.(status := OfficiantFilled, officiantFilledAt := Some(now), updatedAt := now);
    db.agreements := db.agreements[id := a];
    db.notices := db.notices + [Notice(Some(a.userId), DetailsFilledMsg)];
    r := Ok;
  }

  /** uploadUserSignatures: `files` maps each uploaded field to its stored
      file name. Fewer than two fields is refused before the lookup; there
      is no status gate. */
  method UploadUserSignatures(db: Db, id: Id, files: map<string, string>, baseUrl: string, now: Time)
      returns (r: Reply)
    modifies db`agreements, db`notices
    ensures |files.Keys| < 2 ==>
      r == Incomplete && db.agreements == old(db.agreements) && db.notices == old(db.notices)
    ensures |files.Keys| >= 2 && id !in old(db.agreements) ==>
      r == NotFound && db.agreements == old(db.agreements) && db.notices == old(db.notices)
    ensures |files.Keys| >= 2 && id in old(db.agreements) ==>
      var a := old(db.agreements)[id];
      && Apply(a, SignUsers(files, baseUrl, now)).Advanced?
      && r == Ok && db.agreements == old(db.agreements)[id := After(a, SignUsers(files, baseUrl, now))]
      && db.notices == old(db.notices) + [Notice(Some(a.officiantId), SignaturesUploadedMsg)]
  {
    if |files.Keys| < 2 {
      return Incomplete;
    }
    if id !in db.agreements {
      return NotFound;
    }
    var a := db.agreements[id];
    if "partner1Signature" in files {
      a := a.(partner1Signature := Some(SignatureUrl(baseUrl, files["partner1Signature"])));
    }
    if "partner2Signature" in files {
      a := a.(partner2Signature := Some(SignatureUrl(baseUrl, files["partner2Signature"])));
    }
    a := a.(status := UserSigned, userSignedAt := Some(now), updatedAt := now);
    db.agreements := db.agreements[id := a];
    db.notices := db.notices + [Notice(Some(a.officiantId), SignaturesUploadedMsg)];
    r := Ok;
  }

  /** sendPaymentRequest: only from user_signed; the notice announces price plus travel fee. */
  method SendPaymentRequest(db: Db, id: Id, now: Time) returns (r: Reply)
    modifies db`agreements, db`notices
    ensures id !in old(db.agreements) ==>
      r == NotFound && db.agreements == old(db.agreements) && db.notices == old(db.notices)
    ensures id in old(db.agreements) ==>
      var a := old(db.agreements)[id];
      match Apply(a, AskPayment(now))
      case Advanced(next) =>
        && r == Ok && db.agreements == old(db.agreements)[id := next]
        && db.notices == old(db.notices) + [Notice(Some(a.userId), PaymentRequestMsg(PaymentAmount(a)))]
      case Refused(why) =>
        r == why && db.agreements == old(db.agreements) && db.notices == old(db.notices)
  {
    if id !in db.agreements {
      return NotFound;
    }
    var a := db.agreements[id];
    if a.status != UserSigned {
      return InvalidTransition;
    }
    a := a.(status := PaymentRequested, paymentRequestedAt := Some(now), updatedAt := now);
    db.agreements := db.agreements[id := a];
    db.notices := db.notices + [Notice(Some(a.userId), PaymentRequestMsg(a.price + a.travelFee))];
    r := Ok;
  }

  /** markPaymentCompleted: no status gate; the client's AgreementAccepted
      becomes true. The flag write casts the stored client id: when it is not
      an ObjectId the agreement is already saved, the reply is 500 and the
      officiant is not notified. */
  method MarkPaymentCompleted(db: Db, id: Id, now: Time) returns (r: Reply)
    modifies db`agreements, db`users, db`notices
    ensures id !in old(db.agreements) ==>
      && r == NotFound && db.agreements == old(db.agreements)
      && db.users == old(db.users) && db.notices == old(db.notices)
    ensures id in old(db.agreements) ==>
      var a := old(db.agreements)[id];
      && db.agreements == old(db.agreements)[id := After(a, ConfirmPayment(now))]
      && db.agreements[id].status == PaymentCompleted
      && (WellFormedId(a.userId) ==>
            && r == Ok && db.users == SetAgreementAccepted(old(db.users), a.userId, true)
            && db.notices == old(db.notices) + [Notice(Some(a.officiantId), PaymentReceivedMsg)])
      && (!WellFormedId(a.userId) ==>
            r == ServerError && db.users == old(db.users) && db.notices == old(db.notices))
  {
    if id !in db.agreements {
      return NotFound;
    }
    var a := db.agreements[id];
    a := a.(status := PaymentCompleted, paymentCompletedAt := Some(now), updatedAt := now);
    db.agreements := db.agreements[id := a];
    if !WellFormedId(a.userId) {
      return ServerError;
    }
    if a.userId in db.users {
      db.users := db.users[a.userId := db.users[a.userId].(agreementAccepted := true)];
    }
    db.notices := db.notices + [Notice(Some(a.officiantId), PaymentReceivedMsg)];
    r := Ok;
  }

  /** uploadOfficiantSignature: a missing file is refused before the lookup,
      then the status must be exactly payment_completed. As in
      markPaymentCompleted, a stored client id that is not an ObjectId fails
      the flag write after the save: 500 and no notice to the client. */
  method UploadOfficiantSignature(db: Db, id: Id, file: Option<string>, baseUrl: string, now: Time)
      returns (r: Reply)
    modifies db`agreements, db`users, db`notices
    ensures file.None? ==>
      && r == MissingFile && db.agreements == old(db.agreements)
      && db.users == old(db.users) && db.notices == old(db.notices)
    ensures file.Some? && id !in old(db.agreements) ==>
      && r == NotFound && db.agreements == old(db.agreements)
      && db.users == old(db.users) && db.notices == old(db.notices)
    ensures file.Some? && id in old(db.agreements) ==>
      var a := old(db.agreements)[id];
      match Apply(a, SignOfficiant(file, baseUrl, now))
      case Advanced(next) =>
        && db.agreements == old(db.agreements)[id := next]
        && (WellFormedId(a.userId) ==>
              && r == Ok && db.users == SetAgreementAccepted(old(db.users), a.userId, true)
              && db.notices == old(db.notices) + [Notice(Some(a.userId), AgreementCompletedMsg)])
        && (!WellFormedId(a.userId) ==>
              r == ServerError && db.users == old(db.users) && db.notices == old(db.notices))
      case Refused(why) =>
        && r == why && db.agreements == old(db.agreements)
        && db.users == old(db.users) && db.notices == old(db.notices)
  {
    if file.None? {
      return MissingFile;
    }
    if id !in db.agreements {
      return NotFound;
    }
    var a := db.agreements[id];
    if a.status != PaymentCompleted {
      return InvalidTransition;
    }
    a := a.(officiantSignature := Some(SignatureUrl(baseUrl, file.value)));
    a := a.(status := OfficiantSigned, officiantSignedAt := Some(now), completedAt := Some(now));
    a := a.(updatedAt := now);
    db.agreements := db.agreements[id := a];
    if !WellFormedId(a.userId) {
      return ServerError;
    }
    if a.userId in db.users {
      db.users := db.users[a.userId := db.users[a.userId].(agreementAccepted := true)];
    }
    db.notices := db.notices + [Notice(Some(a.userId), AgreementCompletedMsg)];
    r := Ok;
  }

  /** deleteAgreement: not found, then not the creating officiant (whatever
      the status), then a protected status; only then is the record removed. */
  method DeleteAgreement(db: Db, id: Id, requester: Id) returns (r: Reply)
    modifies db`agreements, db`notices
    ensures r != Ok ==> db.agreements == old(db.agreements) && db.notices == old(db.notices)
    ensures id !in old(db.agreements) ==> r == NotFound
    ensures id in old(db.agreements) ==>
      var a := old(db.agreements)[id];
      && (a.officiantId != requester ==> r == Forbidden)
      && (a.officiantId == requester && DeleteProtected(a.status) ==> r == Protected)
      && (a.officiantId == requester && !DeleteProtected(a.status) ==>
            && r == Ok && db.agreements == old(db.agreements) - {id}
            && db.notices == old(db.notices) +
                 (if a.userId != "" then [Notice(Some(a.userId), AgreementCancelledMsg)] else []))
  {
    if id !in db.agreements {
      return NotFound;
    }
    var a := db.agreements[id];
    if a.officiantId != requester {
      return Forbidden;
    }
    if DeleteProtected(a.status) {
      return Protected;
    }
    db.agreements := db.agreements - {id};
    if a.userId != "" {
      db.notices := db.notices + [Notice(Some(a.userId), AgreementCancelledMsg)];
    }
    r := Ok;
  }
}
