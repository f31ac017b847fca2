/** The Applicant record: one user's application to become an officiant. */
module ApplicantSchema {
  import opened Common

  /** The status is stored as text: the enum (pending, approved, rejected) is
      checked when a record is created, not by the status update. */
  datatype Applicant = Applicant(
    userId: Id,
    name: string,
    contactNo: string,
    email: string,
    experience: int,
    address: string,
    experienceDetails: string,
    portfolio: string,
    profilePicture: string,
    language: seq<string>,
    speciality: string,
    status: string,
    appliedAt: Time,
    updatedAt: Time)

  const StatusEnum: set<string> := {"pending", "approved", "rejected"}

  /** Every data field is required; the status must be one of the enum. */
  predicate Storable(a: Applicant)
  {
    && a.userId != "" && a.name != "" && a.contactNo != "" && a.email != ""
    && a.address != "" && a.experienceDetails != "" && a.portfolio != ""
    && a.profilePicture != "" && a.speciality != ""
    && a.status in StatusEnum
  }

  /** One application per user. */
  ghost predicate OnePerUser(apps: map<Id, Applicant>)
  {
    forall i, j :: i in apps && j in apps && apps[i].userId == apps[j].userId ==> i == j
  }
}
