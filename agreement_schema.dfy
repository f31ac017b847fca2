/** The Agreement record: one ceremony contract between a couple (`userId`)
    and an officiant (`officiantId`), its status enum and its defaults. */
module AgreementSchema {
  import opened Common

  /** The eight values the status enum admits. */
  datatype Status =
    | Pending
    | OfficiantFilled
    | UserSigned
    | PaymentRequested
    | PaymentCompleted
    | OfficiantSigned
    | Completed
    | Used

  /** The stored spelling of a status. */
  function StatusName(s: Status): string
  {
    match s
    case Pending => "pending"
    case OfficiantFilled => "officiant_filled"
    case UserSigned => "user_signed"
    case PaymentRequested => "payment_requested"
    case PaymentCompleted => "payment_completed"
    case OfficiantSigned => "officiant_signed"
    case Completed => "completed"
    case Used => "used"
  }

  /** The enum validator: a stored string is accepted only when it names a status. */
  function ParseStatus(t: string): (r: Option<Status>)
    ensures r.Some? ==> StatusName(r.value) == t
  {
    if t == "pending" then Some(Pending)
    else if t == "officiant_filled" then Some(OfficiantFilled)
    else if t == "user_signed" then Some(UserSigned)
    else if t == "payment_requested" then Some(PaymentRequested)
    else if t == "payment_completed" then Some(PaymentCompleted)
    else if t == "officiant_signed" then Some(OfficiantSigned)
    else if t == "completed" then Some(Completed)
    else if t == "used" then Some(Used)
    else None
  }

  /** Every status survives a write and a read of its stored spelling. */
  lemma StatusNameRoundTrip(s: Status)
    ensures ParseStatus(StatusName(s)) == Some(s)
  {
  }

  /** Details are optional text, money is a whole number (JavaScript numbers
      are not modelled), dates are optional times. */
  datatype Agreement = Agreement(
    userId: Id,
    officiantId: Id,
    officiantName: Option<string>,
    eventDate: Option<string>,
    partner1Name: Option<string>,
    partner2Name: Option<string>,
    location: Option<string>,
    price: int,
    travelFee: int,
    status: Status,
    isUsedForCeremony: bool,
    ceremonySubmittedAt: Option<Time>,
    partner1Signature: Option<string>,
    partner2Signature: Option<string>,
    officiantSignature: Option<string>,
    officiantFilledAt: Option<Time>,
    userSignedAt: Option<Time>,
    paymentRequestedAt: Option<Time>,
    paymentCompletedAt: Option<Time>,
    officiantSignedAt: Option<Time>,
    completedAt: Option<Time>,
    createdAt: Time,
    updatedAt: Time)

  /** The schema validator: both party ids are required (a required string
      rejects the empty string). Every other field is optional. */
  predicate Storable(a: Agreement)
  {
    a.userId != "" && a.officiantId != ""
  }

  /** A record with only the two required ids given, every default applied. */
  function BlankAgreement(userId: Id, officiantId: Id, now: Time): (a: Agreement)
    ensures a.status == Pending
    ensures a.price == 0 && a.travelFee == 0 && !a.isUsedForCeremony
    ensures a.userId == userId && a.officiantId == officiantId
    ensures NoSignatures(a) && NoStamps(a)
    ensures a.createdAt == now && a.updatedAt == now
  {
    Agreement(userId, officiantId, None, None, None, None, None, 0, 0, Pending,
              false, None, None, None, None, None, None, None, None, None, None, now, now)
  }

  predicate NoSignatures(a: Agreement)
  {
    a.partner1Signature.None? && a.partner2Signature.None? && a.officiantSignature.None?
  }

  predicate NoStamps(a: Agreement)
  {
    && a.ceremonySubmittedAt.None? && a.officiantFilledAt.None? && a.userSignedAt.None?
    && a.paymentRequestedAt.None? && a.paymentCompletedAt.None?
    && a.officiantSignedAt.None? && a.completedAt.None?
  }

  /** The (userId, officiantId) index is not unique: a store may hold several
      agreements for the same pair. */
  lemma PairIndexNotUnique(u: Id, o: Id, now: Time)
    requires u != "" && o != ""
    ensures var m := map["a1" := BlankAgreement(u, o, now), "a2" := BlankAgreement(u, o, now)];
            |m.Keys| == 2 && forall k :: k in m ==> Storable(m[k]) && m[k].userId == u && m[k].officiantId == o
  {
    var m := map["a1" := BlankAgreement(u, o, now), "a2" := BlankAgreement(u, o, now)];
    assert m.Keys == {"a1", "a2"};
  }
}
