/** The database the handlers share: one map per collection, keyed by
    record id, and the outbox of in-app notifications the handlers send. */
module Store {
  import opened Common
  import opened AgreementSchema
  import opened EventSchema
  import opened UserSchema
  import opened ReviewSchema
  import opened ApplicantSchema
  import opened BillRecord

  /** The in-app notifications the handlers raise, by message. */
  datatype NoticeKind =
    | AgreementCreatedMsg
    | DetailsFilledMsg
    | SignaturesUploadedMsg
    | PaymentRequestMsg(amount: int)
    | PaymentReceivedMsg
    | AgreementCompletedMsg
    | AgreementCancelledMsg
    | CeremonySubmittedMsg(title: string)
    | CeremonyCompletedMsg(title: string)
    | EventAssignmentMsg(title: string)
    | OfficiantAssignedMsg(officiantName: string, title: string)
    | BillPaidMsg
    | BillMadeMsg
    | ReviewCreatedMsg(eventName: string, userName: string, userId: Id)
    | ApplicationSubmittedMsg
    | ApplicationApprovedMsg

  /** A notification and the id it is addressed to (absent when the record has none). */
  datatype Notice = Notice(recipient: Option<Id>, kind: NoticeKind)

  class Db {
    var agreements: map<Id, Agreement>
    var events: map<Id, Event>
    var users: map<Id, User>
    var reviews: map<Id, Review>
    var applicants: map<Id, Applicant>
    var bills: map<Id, Bill>
    /** Every notification sent so far, oldest first. */
    var notices: seq<Notice>

    constructor ()
      ensures agreements == map[] && events == map[] && users == map[]
      ensures reviews == map[] && applicants == map[] && bills == map[]
      ensures notices == []
    {
      agreements := map[];
      events := map[];
      users := map[];
      reviews := map[];
      applicants := map[];
      bills := map[];
      notices := [];
    }
  }

  /** `findByIdAndUpdate(id, {AgreementAccepted: v})`: sets the flag of an
      existing user and does nothing for an unknown id. */
  function SetAgreementAccepted(users: map<Id, User>, id: Id, v: bool): (r: map<Id, User>)
    ensures r.Keys == users.Keys
    ensures id in users ==> r[id] == users[id].(agreementAccepted := v)
    ensures forall k :: k in users && k != id ==> r[k] == users[k]
  {
    if id in users then users[id := users[id].(agreementAccepted := v)] else users
  }
}
