/** The agreement lifecycle as pure functions over one record: the gates each
    handler checks and the fields it writes. The controller methods are proved
    against these functions; the lemmas here are about whole runs of handlers. */
module AgreementLifecycle {
  import opened Common
  import opened AgreementSchema

  /** After the couple has signed, the officiant's details can no longer be edited. */
  predicate Locked(s: Status)
  {
    s in {UserSigned, PaymentRequested, PaymentCompleted, OfficiantSigned, Completed, Used}
  }

  /** Once payment is completed the agreement can no longer be deleted. */
  predicate DeleteProtected(s: Status)
  {
    s in {PaymentCompleted, OfficiantSigned, Completed, Used}
  }

  /** Protection is strictly inside the edit-lock: a signed agreement whose
      payment is still open is locked but can be deleted. */
  lemma ProtectedInsideLocked(s: Status)
    ensures DeleteProtected(s) ==> Locked(s)
    ensures Locked(UserSigned) && !DeleteProtected(UserSigned)
    ensures Locked(PaymentRequested) && !DeleteProtected(PaymentRequested)
    ensures !Locked(Pending) && !Locked(OfficiantFilled)
  {
  }

  /** The officiant-supplied fields of a create or update-details request. */
  datatype Details = Details(
    officiantName: Option<string>,
    eventDate: Option<string>,
    partner1Name: Option<string>,
    partner2Name: Option<string>,
    location: Option<string>,
    price: Option<int>,
    travelFee: Option<int>)

  /** The record createAgreement stores: the officiant is the requester, the
      status is officiant_filled, a missing price takes the schema default 0
      and a falsy travel fee becomes 0. */
  function Drafted(userId: Id, requester: Id, d: Details, now: Time): (a: Agreement)
    ensures a.status == OfficiantFilled && a.officiantId == requester && a.userId == userId
    ensures a.travelFee == (if d.travelFee.Some? then d.travelFee.value else 0)
    ensures a.price == (if d.price.Some? then d.price.value else 0)
    ensures NoSignatures(a) && NoStamps(a) && !a.isUsedForCeremony
    ensures a.officiantName == d.officiantName && a.eventDate == d.eventDate
    ensures a.partner1Name == d.partner1Name && a.partner2Name == d.partner2Name && a.location == d.location
    ensures a.createdAt == now && a.updatedAt == now
  {
    BlankAgreement(userId, requester, now).(
      officiantName := d.officiantName,
      eventDate := d.eventDate,
      partner1Name := d.partner1Name,
      partner2Name := d.partner2Name,
      location := d.location,
      price := OrZero(d.price),
      travelFee := OrZero(d.travelFee),
      status := OfficiantFilled)
  }

  /** The write of updateAgreementDetails: a text field keeps its old value
      when the new one is falsy; price and travel fee are replaced whenever
      they are given. */
  function FillDetails(a: Agreement, d: Details, now: Time): Agreement
  {
    a.(
      officiantName := OrElse(d.officiantName, a.officiantName),
      eventDate := OrElse(d.eventDate, a.eventDate),
      partner1Name := OrElse(d.partner1Name, a.partner1Name),
      partner2Name := OrElse(d.partner2Name, a.partner2Name),
      location := OrElse(d.location, a.location),
      price := if d.price.Some? then d.price.value else a.price,
      travelFee := if d.travelFee.Some? then d.travelFee.value else a.travelFee,
      status := OfficiantFilled,
      officiantFilledAt := Some(now),
      updatedAt := now)
  }

  /** Public address of an uploaded signature image. */
  function SignatureUrl(baseUrl: string, filename: string): string
  {
    baseUrl + "/uploads/signatures/" + filename
  }

  /** The write of uploadUserSignatures; `files` maps each uploaded field
      name to the stored name of its first file. */
  function SignByUsers(a: Agreement, files: map<string, string>, baseUrl: string, now: Time): Agreement
  {
    a.(
      partner1Signature :=
        if "partner1Signature" in files then Some(SignatureUrl(baseUrl, files["partner1Signature"]))
        else a.partner1Signature,
      partner2Signature :=
        if "partner2Signature" in files then Some(SignatureUrl(baseUrl, files["partner2Signature"]))
        else a.partner2Signature,
      status := UserSigned,
      userSignedAt := Some(now),
      updatedAt := now)
  }

  function RequestPayment(a: Agreement, now: Time): Agreement
  {
    a.(status := PaymentRequested, paymentRequestedAt := Some(now), updatedAt := now)
  }

  /** The amount the payment request announces. */
  function PaymentAmount(a: Agreement): int
  {
    a.price + a.travelFee
  }

  function MarkPaid(a: Agreement, now: Time): Agreement
  {
    a.(status := PaymentCompleted, paymentCompletedAt := Some(now), updatedAt := now)
  }

  /** The write of uploadOfficiantSignature: both stamps come from the same call. */
  function SignByOfficiant(a: Agreement, filename: string, baseUrl: string, now: Time): Agreement
  {
    a.(
      officiantSignature := Some(SignatureUrl(baseUrl, filename)),
      status := OfficiantSigned,
      officiantSignedAt := Some(now),
      completedAt := Some(now),
      updatedAt := now)
  }

  /** The write an event submission makes (a findOneAndUpdate, so `updatedAt` is untouched). */
  function MarkUsed(a: Agreement, now: Time): Agreement
  {
    a.(isUsedForCeremony := true, ceremonySubmittedAt := Some(now), status := Used)
  }

  /** One request against an existing agreement. */
  datatype Action =
    | Fill(details: Details, at: Time)
    | SignUsers(files: map<string, string>, baseUrl: string, at: Time)
    | AskPayment(at: Time)
    | ConfirmPayment(at: Time)
    | SignOfficiant(file: Option<string>, baseUrl: string, at: Time)
    | Consume(at: Time)

  datatype Step = Advanced(next: Agreement) | Refused(reason: Reply)

  /** Each handler's gate and write on a record that was found. */
  function Apply(a: Agreement, act: Action): (r: Step)
    ensures act.Fill? ==> (r.Advanced? <==> !Locked(a.status))
    ensures act.SignUsers? ==> (r.Advanced? <==> |act.files.Keys| >= 2)
    ensures act.AskPayment? ==> (r.Advanced? <==> a.status == UserSigned)
    ensures act.SignOfficiant? ==> (r.Advanced? <==> act.file.Some? && a.status == PaymentCompleted)
    ensures act.ConfirmPayment? || act.Consume? ==> r.Advanced?
    ensures r.Refused? ==> r.reason != Ok
    ensures r.Advanced? ==> SameParties(a, r.next)
  {
    match act
    case Fill(d, now) =>
      if Locked(a.status) then Refused(EditLocked) else Advanced(FillDetails(a, d, now))
    case SignUsers(files, baseUrl, now) =>
      if |files.Keys| < 2 then Refused(Incomplete) else Advanced(SignByUsers(a, files, baseUrl, now))
    case AskPayment(now) =>
      if a.status != UserSigned then Refused(InvalidTransition) else Advanced(RequestPayment(a, now))
    case ConfirmPayment(now) =>
      Advanced(MarkPaid(a, now))
    case SignOfficiant(file, baseUrl, now) =>
      if file.None? then Refused(MissingFile)
      else if a.status != PaymentCompleted then Refused(InvalidTransition)
      else Advanced(SignByOfficiant(a, file.value, baseUrl, now))
    case Consume(now) =>
      Advanced(MarkUsed(a, now))
  }

  /** No handler reassigns who the agreement is between. */
  predicate SameParties(a: Agreement, b: Agreement)
  {
    a.userId == b.userId && a.officiantId == b.officiantId && a.createdAt == b.createdAt
  }

  /** Where a request leaves the record: a refused request changes nothing. */
  function After(a: Agreement, act: Action): Agreement
  {
    match Apply(a, act)
    case Advanced(next) => next
    case Refused(_) => a
  }

  /** A sequence of requests applied in order. */
  function Run(a: Agreement, acts: seq<Action>): Agreement
    decreases |acts|
  {
    if acts == [] then a else Run(After(a, acts[0]), acts[1..])
  }

  /** Successful updateAgreementDetails: the status becomes officiant_filled, the
      stamp is the call time, only the details, the status and the two stamps move. */
  lemma FillDetailsEffect(a: Agreement, d: Details, now: Time)
    ensures var b := FillDetails(a, d, now);
      && b.status == OfficiantFilled && b.officiantFilledAt == Some(now)
      && !Locked(b.status)
      && (!Truthy(d.officiantName) ==> b.officiantName == a.officiantName)
      && (Truthy(d.officiantName) ==> b.officiantName == d.officiantName)
      && (!Truthy(d.location) ==> b.location == a.location)
      && (d.price.None? ==> b.price == a.price)
      && (d.price.Some? ==> b.price == d.price.value)
      && (d.travelFee.Some? ==> b.travelFee == d.travelFee.value)
      && b == a.(officiantName := b.officiantName, eventDate := b.eventDate,
                 partner1Name := b.partner1Name, partner2Name := b.partner2Name,
                 location := b.location, price := b.price, travelFee := b.travelFee,
                 status := OfficiantFilled, officiantFilledAt := Some(now), updatedAt := now)
  {
  }

  /** Filling the same details twice is the same as filling them once (the
      details edit is re-entrant while unlocked). */
  lemma FillDetailsIdempotent(a: Agreement, d: Details, now: Time)
    ensures FillDetails(FillDetails(a, d, now), d, now) == FillDetails(a, d, now)
  {
  }

  /** With the files the signature route admits (at most the two partner
      fields), the two-file check passes exactly when both partner files are
      there, and passing it means both signatures are stored. */
  lemma SignaturesCompleteOnRoute(a: Agreement, files: map<string, string>, baseUrl: string, now: Time)
    requires files.Keys <= {"partner1Signature", "partner2Signature"}
    ensures Apply(a, SignUsers(files, baseUrl, now)).Advanced? <==>
            "partner1Signature" in files && "partner2Signature" in files
    ensures |files.Keys| >= 2 ==>
      var b := SignByUsers(a, files, baseUrl, now);
      b.partner1Signature.Some? && b.partner2Signature.Some? && b.status == UserSigned
  {
    if "partner1Signature" in files && "partner2Signature" in files {
      assert files.Keys == {"partner1Signature", "partner2Signature"};
    } else if "partner1Signature" in files {
      assert files.Keys <= {"partner1Signature"};
      SubsetOfSingleton(files.Keys, "partner1Signature");
    } else {
      assert files.Keys <= {"partner2Signature"};
      SubsetOfSingleton(files.Keys, "partner2Signature");
    }
  }

  lemma SubsetOfSingleton(s: set<string>, x: string)
    requires s <= {x}
    ensures |s| <= 1
  {
    if s != {} {
      assert s == {x};
    }
  }

  /** The handler's own check counts fields, not partner signatures: two
      file fields of which only one is a partner signature pass it. */
  lemma TwoFieldsNeedNotBeBothSignatures(a: Agreement, baseUrl: string, now: Time)
    requires a.partner2Signature.None?
    ensures var files := map["partner1Signature" := "p1.png", "officiantSignature" := "o.png"];
      Apply(a, SignUsers(files, baseUrl, now)).Advanced?
      && SignByUsers(a, files, baseUrl, now).partner2Signature.None?
  {
    var files := map["partner1Signature" := "p1.png", "officiantSignature" := "o.png"];
    assert files.Keys == {"partner1Signature", "officiantSignature"};
  }

  /** The edit-lock is absorbing for one request: from a locked status every
      request either is refused or lands in a locked status, and a details
      edit is always refused. */
  lemma LockAbsorbsStep(a: Agreement, act: Action)
    requires Locked(a.status)
    ensures Locked(After(a, act).status)
    ensures act.Fill? ==> Apply(a, act) == Refused(EditLocked)
  {
  }

  /** The edit-lock is absorbing for any run of requests. */
  lemma {:induction false} LockAbsorbsRun(a: Agreement, acts: seq<Action>)
    requires Locked(a.status)
    ensures Locked(Run(a, acts).status)
    decreases |acts|
  {
    if acts != [] {
      LockAbsorbsStep(a, acts[0]);
      LockAbsorbsRun(After(a, acts[0]), acts[1..]);
    }
  }

  /** Hence once the couple has signed, no later details edit succeeds. */
  lemma DetailsNeverEditableAfterLock(a: Agreement, acts: seq<Action>, d: Details, now: Time)
    requires Locked(a.status)
    ensures Apply(Run(a, acts), Fill(d, now)) == Refused(EditLocked)
  {
    LockAbsorbsRun(a, acts);
  }

  /** The stamps a status implies, and the officiant signature behind a signed agreement. */
  predicate Stamped(a: Agreement)
  {
    && (a.status == UserSigned ==> a.userSignedAt.Some?)
    && (a.status == PaymentRequested ==> a.paymentRequestedAt.Some?)
    && (a.status == PaymentCompleted ==> a.paymentCompletedAt.Some?)
    && (a.status == OfficiantSigned ==>
          a.officiantSignature.Some? && a.officiantSignedAt.Some? && a.completedAt.Some?)
    && (a.status == Used ==> a.isUsedForCeremony && a.ceremonySubmittedAt.Some?)
    && (a.status == Completed ==> a.completedAt.Some?)
  }

  lemma DraftedIsStamped(userId: Id, requester: Id, d: Details, now: Time)
    ensures Stamped(Drafted(userId, requester, d, now))
  {
  }

  /** Every run of requests from a created agreement keeps the stamps its status implies. */
  lemma {:induction false} RunKeepsStamped(a: Agreement, acts: seq<Action>)
    requires Stamped(a)
    ensures Stamped(Run(a, acts))
    decreases |acts|
  {
    if acts != [] {
      assert Stamped(After(a, acts[0]));
      RunKeepsStamped(After(a, acts[0]), acts[1..]);
    }
  }

  /** No handler ever writes the `completed` status: a run ends there only if it started there. */
  lemma {:induction false} CompletedNeverEntered(a: Agreement, acts: seq<Action>)
    requires a.status != Completed
    ensures Run(a, acts).status != Completed
    decreases |acts|
  {
    if acts != [] {
      assert After(a, acts[0]).status != Completed;
      CompletedNeverEntered(After(a, acts[0]), acts[1..]);
    }
  }

  /** Payment confirmation has no status gate: it succeeds even on a fresh agreement. */
  lemma PaymentConfirmableFromAnyStatus(a: Agreement, now: Time)
    ensures After(a, ConfirmPayment(now)).status == PaymentCompleted
  {
  }

  /** A consumed agreement is not terminal: signatures, payment and the
      officiant's signature take it from `used` back to `officiant_signed`. */
  lemma UsedAgreementCanBeSignedAgain(a: Agreement, baseUrl: string, t: Time)
    requires a.status == Used
    ensures var files := map["partner1Signature" := "p1.png", "partner2Signature" := "p2.png"];
      Run(a, [SignUsers(files, baseUrl, t), AskPayment(t), ConfirmPayment(t),
              SignOfficiant(Some("o.png"), baseUrl, t)]).status == OfficiantSigned
  {
    var files := map["partner1Signature" := "p1.png", "partner2Signature" := "p2.png"];
    assert files.Keys == {"partner1Signature", "partner2Signature"};
    var acts := [SignUsers(files, baseUrl, t), AskPayment(t), ConfirmPayment(t),
                 SignOfficiant(Some("o.png"), baseUrl, t)];
    var a1 := After(a, acts[0]);
    assert a1.status == UserSigned;
    var a2 := After(a1, acts[1]);
    assert a2.status == PaymentRequested;
    var a3 := After(a2, acts[2]);
    var a4 := After(a3, acts[3]);
    assert a4.status == OfficiantSigned;
    assert acts[1..][1..] == acts[2..];
    assert acts[2..][1..] == acts[3..];
    assert acts[3..][1..] == [];
    calc {
      Run(a, acts);
      Run(a1, acts[1..]);
      Run(a2, acts[2..]);
      Run(a3, acts[3..]);
      Run(a4, []);
    }
  }

  /** The whole happy path: created with price 500 and travel fee 50, signed
      by both partners, payment requested (amount 550), confirmed and signed
      by the officiant; the record ends officiant_signed with `completedAt` set. */
  lemma HappyPath(u: Id, o: Id, baseUrl: string, t0: Time, t1: Time, t2: Time, t3: Time, t4: Time)
    ensures
      var a0 := Drafted(u, o, Details(None, None, Some("A"), Some("B"), None, Some(500), Some(50)), t0);
      var files := map["partner1Signature" := "p1.png", "partner2Signature" := "p2.png"];
      var a1 := After(a0, SignUsers(files, baseUrl, t1));
      var a2 := After(a1, AskPayment(t2));
      var a3 := After(a2, ConfirmPayment(t3));
      var a4 := After(a3, SignOfficiant(Some("o.png"), baseUrl, t4));
      && a1.status == UserSigned && a1.partner1Signature.Some? && a1.partner2Signature.Some?
      && a2.status == PaymentRequested && a2.paymentRequestedAt == Some(t2)
      && PaymentAmount(a2) == 550
      && a3.status == PaymentCompleted
      && a4.status == OfficiantSigned && a4.completedAt == Some(t4)
      && a4.officiantSignedAt == Some(t4)
  {
    var files := map["partner1Signature" := "p1.png", "partner2Signature" := "p2.png"];
    assert files.Keys == {"partner1Signature", "partner2Signature"};
  }
}
