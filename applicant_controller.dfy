/** The officiant application handlers: submitting an application with its
    two uploaded files, deciding on it (approval promotes the user), and
    withdrawing it. */
module ApplicantController {
  import opened Common
  import opened UserSchema
  import opened ApplicantSchema
  import opened Upload
  import opened Store

  /** `language` as it arrives: form text to be parsed, or an already parsed list. */
  datatype LanguageInput = LanguageText(text: string) | LanguageList(items: seq<string>)

  /** The text fields of a submission, each absent when the form leaves it out. */
  datatype ApplicationBody = ApplicationBody(
    userId: Option<Id>,
    name: Option<string>,
    contactNo: Option<string>,
    email: Option<string>,
    experience: Option<string>,
    address: Option<string>,
    experienceDetails: Option<string>,
    language: Option<LanguageInput>,
    speciality: Option<string>)

  /** The stored names of the two uploaded files, absent when not uploaded. */
  datatype ApplicationFiles = ApplicationFiles(profilePicture: Option<string>, portfolio: Option<string>)

  /** The duplicate check: some application matches the user id. An absent
      id drops out of the filter, which then matches any application. */
  predicate AppliedBefore(apps: map<Id, Applicant>, userId: Option<Id>)
  {
    exists k :: k in apps && KeyMatches(userId, apps[k].userId)
  }

  /** Truthiness of `language`: empty text is falsy, a list never is. */
  predicate LanguageGiven(l: Option<LanguageInput>)
  {
    l.Some? && (l.value.LanguageText? ==> l.value.text != "")
  }

  /** The nine required text fields are all truthy. */
  predicate FieldsGiven(b: ApplicationBody)
  {
    && Truthy(b.userId) && Truthy(b.name) && Truthy(b.contactNo) && Truthy(b.email)
    && Truthy(b.experience) && Truthy(b.address) && Truthy(b.experienceDetails)
    && Truthy(b.speciality) && LanguageGiven(b.language)
  }

  predicate FilesGiven(f: ApplicationFiles)
  {
    f.profilePicture.Some? && f.portfolio.Some?
  }

  /** The stored languages: text is parsed (`parsed`, absent when the parse
      throws) and falls back to a one-element list; a list is kept. */
  function Languages(l: LanguageInput, parsed: Option<seq<string>>): (langs: seq<string>)
    ensures l.LanguageList? ==> langs == l.items
    ensures l.LanguageText? ==> langs == (if parsed.Some? then parsed.value else [l.text])
  {
    match l
    case LanguageList(items) => items
    case LanguageText(text) => if parsed.Some? then parsed.value else [text]
  }

  /** The addresses written for the two files. */
  function ProfilePictureAddress(baseUrl: string, stored: string): string
  {
    baseUrl + "/uploads/profiles/" + stored
  }

  function PortfolioAddress(baseUrl: string, stored: string): string
  {
    baseUrl + "/uploads/portfolios/" + stored
  }

  /** Both addresses point at the files the applicant storage wrote: the
      static server maps each to the destination directory of its field. */
  lemma ApplicationFilesAreServed(baseUrl: string, picture: string, portfolio: string)
    ensures ServedPath(baseUrl, ProfilePictureAddress(baseUrl, picture)) == Some(Destination("profilePicture") + "/" + picture)
    ensures ServedPath(baseUrl, PortfolioAddress(baseUrl, portfolio)) == Some(Destination("portfolio") + "/" + portfolio)
  {
    assert ProfilePictureAddress(baseUrl, picture) == PublicUrl(baseUrl, "uploads/profiles", picture);
    assert PortfolioAddress(baseUrl, portfolio) == PublicUrl(baseUrl, "uploads/portfolios", portfolio);
    PublicUrlIsServed(baseUrl, "uploads/profiles", picture);
    PublicUrlIsServed(baseUrl, "uploads/portfolios", portfolio);
  }

  /** The application a valid submission stores: status pending, both stamps now. */
  function Submitted(b: ApplicationBody, f: ApplicationFiles, baseUrl: string, experience: int,
                     parsedLanguage: Option<seq<string>>, now: Time): (a: Applicant)
    requires FieldsGiven(b) && FilesGiven(f)
    ensures Storable(a) && a.status == "pending" && a.userId == b.userId.value
    ensures a.experience == experience && a.appliedAt == now && a.updatedAt == now
  {
    Applicant(b.userId.value, b.name.value, b.contactNo.value, b.email.value, experience, b.address.value,
              b.experienceDetails.value, PortfolioAddress(baseUrl, f.portfolio.value),
              ProfilePictureAddress(baseUrl, f.profilePicture.value),
              Languages(b.language.value, parsedLanguage), b.speciality.value, "pending", now, now)
  }

  /** createApplication: a second application is refused before anything
      else is looked at; then the text fields, then both files; an
      experience that does not parse as a number fails the save. `parsedExperience`
      is `parseInt` of the experience text (absent for NaN). */
  method CreateApplication(db: Db, b: ApplicationBody, f: ApplicationFiles, baseUrl: string,
                           parsedExperience: Option<int>, parsedLanguage: Option<seq<string>>,
                           newId: Id, now: Time) returns (r: Reply)
    requires newId !in db.applicants
    modifies db`applicants, db`notices
    ensures r == AlreadyApplied <==> AppliedBefore(old(db.applicants), b.userId)
    ensures r == MissingFields <==> !AppliedBefore(old(db.applicants), b.userId) && !FieldsGiven(b)
    ensures r == MissingFiles <==>
      !AppliedBefore(old(db.applicants), b.userId) && FieldsGiven(b) && !FilesGiven(f)
    ensures r == ServerError <==>
      !AppliedBefore(old(db.applicants), b.userId) && FieldsGiven(b) && FilesGiven(f) && parsedExperience.None?
    ensures r == Ok <==>
      !AppliedBefore(old(db.applicants), b.userId) && FieldsGiven(b) && FilesGiven(f) && parsedExperience.Some?
    ensures r == Ok ==>
      && db.applicants == old(db.applicants)[newId := Submitted(b, f, baseUrl, parsedExperience.value, parsedLanguage, now)]
      && db.notices == old(db.notices) + [Notice(b.userId, ApplicationSubmittedMsg)]
    ensures r != Ok ==> db.applicants == old(db.applicants) && db.notices == old(db.notices)
    ensures OnePerUser(old(db.applicants)) ==> OnePerUser(db.applicants)
  {
    if AppliedBefore(db.applicants, b.userId) {
      return AlreadyApplied;
    }
    if !FieldsGiven(b) {
      return MissingFields;
    }
    if !FilesGiven(f) {
      return MissingFiles;
    }
    if parsedExperience.None? {
      return ServerError;
    }
    var a := Submitted(b, f, baseUrl, parsedExperience.value, parsedLanguage, now);
    db.applicants := db.applicants[newId := a];
    db.notices := db.notices + [Notice(b.userId, ApplicationSubmittedMsg)];
    r := Ok;
    NoDuplicateAfterInsert(old(db.applicants), newId, a);
  }

  /** Inserting the application of a user with no application keeps one
      application per user. */
  lemma NoDuplicateAfterInsert(apps: map<Id, Applicant>, newId: Id, a: Applicant)
    requires newId !in apps
    requires forall k :: k in apps ==> apps[k].userId != a.userId
    ensures OnePerUser(apps) ==> OnePerUser(apps[newId := a])
  {
  }

  /** The role write of an approval on the user the `_id` filter matched:
      that user becomes an officiant with the application's experience, and
      nobody else changes. No match (`None`) changes nobody. */
  function Promoted(users: map<Id, User>, matched: Option<Id>, experience: int): (r: map<Id, User>)
    ensures r.Keys == users.Keys
    ensures matched.Some? && matched.value in users ==>
      r[matched.value] == users[matched.value].(role := Officiant, experience := experience)
    ensures forall k :: k in users && (matched.None? || k != matched.value) ==> r[k] == users[k]
  {
    if matched.Some? && matched.value in users then
      users[matched.value := users[matched.value].(role := Officiant, experience := experience)]
    else users
  }

  /** The status write: absent leaves the record as it was; any text is
      written, even one outside the enum, because this update runs no validators. */
  function WithStatus(a: Applicant, status: Option<string>): (b: Applicant)
    ensures b.status == (if status.Some? then status.value else a.status)
    ensures b.(status := a.status) == a
  {
    if status.Some? then a.(status := status.value) else a
  }

  /** Whether the approval's user lookup throws: a body userId that is not
      an ObjectId fails the cast (an absent one is dropped from the filter). */
  predicate MalformedUserId(userId: Option<Id>)
  {
    userId.Some? && !WellFormedId(userId.value)
  }

  /** updateApplicationStatus: the application is read before the try, so a
      malformed id throws unanswered; an approval then fails with a server
      error before anything is written when the application is unknown or
      the body's userId is malformed; otherwise an approval promotes the user
      the `_id` filter matches (`promoted`; with no userId in the body the
      filter is empty and the store picks any user) and notifies the body's
      user, and then the status is written or the id is not found. */
  method UpdateApplicationStatus(db: Db, id: Id, status: Option<string>, userId: Option<Id>)
      returns (r: Reply, promoted: Option<Id>)
    modifies db`applicants, db`users, db`notices
    ensures r == Unanswered <==> !WellFormedId(id)
    ensures r == ServerError <==>
      WellFormedId(id) && status == Some("approved") && (id !in old(db.applicants) || MalformedUserId(userId))
    ensures r == NotFound <==> WellFormedId(id) && status != Some("approved") && id !in old(db.applicants)
    ensures r == Ok <==>
      WellFormedId(id) && id in old(db.applicants) && !(status == Some("approved") && MalformedUserId(userId))
    ensures promoted.Some? ==>
      && r == Ok && status == Some("approved")
      && promoted.value in old(db.users) && KeyMatches(userId, promoted.value)
    ensures r == Ok && status == Some("approved") && promoted.None? ==>
      forall k :: k in old(db.users) ==> !KeyMatches(userId, k)
    ensures r == Ok ==>
      && db.applicants == old(db.applicants)[id := WithStatus(old(db.applicants)[id], status)]
      && (status == Some("approved") ==>
            && db.users == Promoted(old(db.users), promoted, old(db.applicants)[id].experience)
            && db.notices == old(db.notices) + [Notice(userId, ApplicationApprovedMsg)])
      && (status != Some("approved") ==> db.users == old(db.users) && db.notices == old(db.notices))
    ensures r != Ok ==>
      db.applicants == old(db.applicants) && db.users == old(db.users) && db.notices == old(db.notices)
  {
    promoted := None;
    if !WellFormedId(id) {
      return Unanswered, None;
    }
    if status == Some("approved") {
      if id !in db.applicants || MalformedUserId(userId) {
        return ServerError, None;
      }
      if exists k :: k in db.users && KeyMatches(userId, k) {
        var k :| k in db.users && KeyMatches(userId, k);
        promoted := Some(k);
      }
      db.users := Promoted(db.users, promoted, db.applicants[id].experience);
      db.notices := db.notices + [Notice(userId, ApplicationApprovedMsg)];
    }
    if id !in db.applicants {
      return NotFound, None;
    }
    db.applicants := db.applicants[id := WithStatus(db.applicants[id], status)];
    r := Ok;
  }

  /** A status update never adds or removes an application and never
      changes whose it is, so one application per user survives it. */
  lemma StatusUpdateKeepsOnePerUser(apps: map<Id, Applicant>, id: Id, status: Option<string>)
    requires id in apps && OnePerUser(apps)
    ensures OnePerUser(apps[id := WithStatus(apps[id], status)])
    ensures apps[id := WithStatus(apps[id], status)].Keys == apps.Keys
  {
    var after := apps[id := WithStatus(apps[id], status)];
    assert forall k :: k in after ==> after[k].userId == apps[k].userId;
  }

  /** The status update can leave the enum: a stored application given any
      other status text is no longer one the schema would accept. */
  lemma StatusMayLeaveEnum(a: Applicant, s: string)
    requires Storable(a) && s !in StatusEnum
    ensures !Storable(WithStatus(a, Some(s)))
  {
  }

  /** Approval can promote a user other than the applicant: the `_id`
      filter is the id in the request body, not the application's own. */
  lemma ApprovalPromotesBodyUser(users: map<Id, User>, applicant: Applicant, other: Id)
    requires other in users && other != applicant.userId
    ensures !KeyMatches(Some(other), applicant.userId)
    ensures Promoted(users, Some(other), applicant.experience)[other].role == Officiant
    ensures applicant.userId in users ==>
      Promoted(users, Some(other), applicant.experience)[applicant.userId] == users[applicant.userId]
  {
  }

  /** An approval without a userId in the body has an empty `_id` filter,
      which every user matches: any stored user, the applicant or not, may be
      the one promoted. */
  lemma AbsentUserIdMatchesEveryone(users: map<Id, User>, k: Id)
    requires k in users
    ensures KeyMatches(None, k)
    ensures !(forall j :: j in users ==> !KeyMatches(None, j))
  {
  }

  /** deleteApplication: the application is removed, or the id is not found. */
  method DeleteApplication(db: Db, id: Id) returns (r: Reply)
    modifies db`applicants
    ensures r == Ok <==> id in old(db.applicants)
    ensures r == Ok ==> db.applicants == old(db.applicants) - {id}
    ensures r != Ok ==> r == NotFound && db.applicants == old(db.applicants)
    ensures OnePerUser(old(db.applicants)) ==> OnePerUser(db.applicants)
  {
    if id !in db.applicants {
      return NotFound;
    }
    db.applicants := db.applicants - {id};
    r := Ok;
  }

  /** After a withdrawal the user may apply again: the duplicate check no
      longer sees the removed application. */
  lemma WithdrawalAllowsReapplying(apps: map<Id, Applicant>, id: Id)
    requires id in apps && OnePerUser(apps)
    ensures !AppliedBefore(apps - {id}, Some(apps[id].userId))
  {
  }
}
