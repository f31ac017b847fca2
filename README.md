# Wedding-officiant booking backend: a verified model

This project models the request handlers of a wedding-officiant booking
backend: the agreement lifecycle between a couple and an officiant, the
ceremony (event) records that depend on it, user accounts and their stored
refresh tokens, the upload middleware, the offline-message mail choices,
reviews, officiant applications and bills. Each handler is a Dafny method
over one shared store. The store is a class `Store.Db` holding one map per
collection, plus an outbox of in-app notifications. Each handler's contract
ties the new store to pure functions. Lemmas then prove what the handlers
promise across several calls, for example:

- the edit-lock is absorbing;
- a rotated refresh token is retired when the re-issued token differs from
  the presented one;
- at most one application exists per user;
- the reply to an incomplete review lists exactly the missing fields, in
  their declared order;
- upload addresses point at the directory the storage wrote to.

Modules, in dependency order:

- `Common`: optional values, JavaScript truthiness, ids, times and the
  handler replies.
- Record modules: `AgreementSchema`, `EventSchema`, `UserSchema`,
  `ReviewSchema`, `ApplicantSchema`, `BillRecord`.
- `AgreementLifecycle`: the agreement state machine as pure steps, with
  lemmas about runs of requests.
- `Upload`: storage directories, stored names, file filters and limits.
- `Store`: the database class and the notifications.
- Handlers: `AgreementController`, `EventController`, `UserController`,
  `EmailService`, `ReviewController`, `ApplicantController`,
  `BillController`.

Modelling conventions:

- A lookup that returns "some matching record" (`findOne`,
  `findOneAndUpdate`) is a nondeterministic choice. The chosen id is
  returned so that the contract can name it.
- These are parameters: the clock, fresh record ids, issued tokens, the id
  a verified token decodes to, the social-login random password, the upload
  name suffix and the transport's delivery result.
- bcrypt is an injective abstract digest (its 72-byte limit is listed under "## Left out").
- A request field that is left out is `None`.
- A filter key whose value is `undefined` is dropped from the query, so it
  matches any record (`Common.KeyMatches`). This holds for `find`,
  `findOne` and `findOneAndUpdate`, and for `findByIdAndUpdate`, whose
  `_id` filter is built the same way. Only `findById` turns `undefined`
  into `null`, which matches nothing.
- An id used as `_id` is well formed when it is 24 hexadecimal digits
  (`Common.WellFormedId`); Mongoose throws a cast error on any other. The
  client ids stored in agreements and events are free text, so a stored id
  can be malformed too.
- A handler that rejects outside any try/catch answers `Unanswered`: the
  handler itself sends no reply.
- Update keys that are `undefined` leave the field as it was.
- Paths that are not in a schema are dropped by strict mode.

## Model

| member | source | states |
|---|---|---|
| Common.OrElse | Controllers/AgreementController.js:225-229 | `a \|\| b` is truthy iff either side is, and is `a` when `a` is truthy |
| AgreementSchema.ParseStatus | Models/AgreementSchema.js:17-30 | the enum validator accepts a text only when it is the stored spelling of one of the eight statuses |
| AgreementSchema.StatusNameRoundTrip | Models/AgreementSchema.js:17-30 | every status is accepted back from its stored spelling |
| AgreementSchema.BlankAgreement | Models/AgreementSchema.js:4-50 | the defaults: status pending, price and travel fee 0, not used for a ceremony, no signature and no stamp, both dates the creation time |
| AgreementSchema.PairIndexNotUnique | Models/AgreementSchema.js:53-54 | two valid agreements may share the same (userId, officiantId) pair |
| AgreementLifecycle.ProtectedInsideLocked | Controllers/AgreementController.js:211-223 | every delete-protected status is edit-locked; user_signed and payment_requested are locked but deletable; pending and officiant_filled are not locked |
| AgreementLifecycle.Drafted | Controllers/AgreementController.js:21-36 | a created agreement is officiant_filled, its officiant is the requester, its name, date, partner and location fields are the request's, a missing price or a falsy travel fee becomes 0, both dates are the creation time, and it has no signature and no stamp |
| AgreementLifecycle.Apply | Controllers/AgreementController.js:211-424 | each handler's gate as an iff: details edit iff not locked; user signatures iff at least two file fields; payment request iff user_signed; officiant signature iff a file is given and the status is payment_completed; payment confirmation and submission always pass; a refusal is never Ok; no step changes the parties |
| AgreementLifecycle.FillDetailsEffect | Controllers/AgreementController.js:225-235 | after a details edit the status is officiant_filled with the stamp set; a falsy text keeps its old value; price and travel fee are replaced exactly when given; no other field moves |
| AgreementLifecycle.FillDetailsIdempotent | Controllers/AgreementController.js:225-235 | filling the same details twice equals filling them once |
| AgreementLifecycle.SignaturesCompleteOnRoute | Controllers/AgreementController.js:263-287 | with only the two partner fields the route admits (Routes/agreementRoute.js:33-36), the two-file check passes iff both partner files are there, and passing it stores both signatures with status user_signed |
| AgreementLifecycle.TwoFieldsNeedNotBeBothSignatures | Controllers/AgreementController.js:263-287 | the handler's check counts fields: a partner signature plus an officiant-signature file passes it and leaves partner 2 unsigned (the route's field list refuses that request before the handler) |
| AgreementLifecycle.LockAbsorbsStep | Controllers/AgreementController.js:211-223 | from a locked status any request is refused or ends locked, and a details edit is refused with EditLocked |
| AgreementLifecycle.LockAbsorbsRun | Controllers/AgreementController.js:211-424 | from a locked status every run of requests ends locked |
| AgreementLifecycle.DetailsNeverEditableAfterLock | Controllers/AgreementController.js:211-223 | once locked, a details edit after any run of requests is refused |
| AgreementLifecycle.DraftedIsStamped | Controllers/AgreementController.js:21-36 | a created agreement carries the stamps its status implies |
| AgreementLifecycle.RunKeepsStamped | Controllers/AgreementController.js:278-419 | every run of requests keeps the stamps its status implies (signed at, requested at, paid at, officiant signature with both of its stamps, used with its submission stamp) |
| AgreementLifecycle.CompletedNeverEntered | Models/AgreementSchema.js:26 | no handler writes the `completed` status: a run ends there only if it started there |
| AgreementLifecycle.PaymentConfirmableFromAnyStatus | Controllers/AgreementController.js:354-365 | payment confirmation has no status gate |
| AgreementLifecycle.UsedAgreementCanBeSignedAgain | Controllers/eventController.js:51-59 | `used` is not terminal: signing, payment and the officiant signature take it back to officiant_signed |
| AgreementLifecycle.HappyPath | Controllers/AgreementController.js:8-424 | create with price 500 and fee 50, both signatures, payment request (amount 550), confirmation and officiant signature end officiant_signed with both final stamps at the signing time |
| AgreementController.CreateAgreement | Controllers/AgreementController.js:8-112 | Ok iff the client id is truthy and the requester id is non-empty; then the drafted, valid record is stored and the client is notified; otherwise nothing changes |
| AgreementController.AgreementsOf | Controllers/AgreementController.js:119-121 | exactly the ids of the agreements naming the given party on the given side (the client here, the officiant for the officiant's listing at line 161) |
| AgreementController.GetAgreementByUserId | Controllers/AgreementController.js:115-137 | returns one of the client's agreements, and not found exactly when there is none |
| AgreementController.ClientOf | Controllers/AgreementController.js:168-175 | the client's name, or "Unknown"; the client's email, or "" for an unknown client |
| AgreementController.OfficiantListing | Controllers/AgreementController.js:158-189 | fails as a whole iff one of the officiant's agreements has a client id that is not an ObjectId; otherwise exactly the officiant's agreements, each unchanged, with a non-empty client name |
| AgreementController.UpdateAgreementDetails | Controllers/AgreementController.js:192-256 | not found changes nothing; otherwise the store moves exactly as the details step does: written and the client notified, or refused as locked with nothing changed |
| AgreementController.UploadUserSignatures | Controllers/AgreementController.js:259-308 | fewer than two file fields is refused before the lookup; then not found; otherwise the signatures are written whatever the prior status and the officiant is notified |
| AgreementController.SendPaymentRequest | Controllers/AgreementController.js:311-351 | succeeds only from user_signed, then announces price plus travel fee to the client; every refusal changes nothing |
| AgreementController.MarkPaymentCompleted | Controllers/AgreementController.js:354-389 | any found agreement becomes payment_completed; then, with a well-formed client id, the client's AgreementAccepted becomes true and the officiant is notified, and with a malformed one the reply is 500 with no flag write and no notice |
| AgreementController.UploadOfficiantSignature | Controllers/AgreementController.js:392-443 | a missing file is refused before the lookup; then the status must be payment_completed; the agreement is then signed, and a well-formed client id also sets AgreementAccepted and notifies the client, while a malformed one answers 500 with neither |
| AgreementController.DeleteAgreement | Controllers/AgreementController.js:469-519 | not found, then Forbidden for anyone but the creating officiant whatever the status, then Protected; only then removed, with the client notified when there is one |
| EventSchema.ParseEventStatus | Models/EventSchema.js:45-49 | the status validator accepts exactly the five spellings |
| EventSchema.EventStatusNameRoundTrip | Models/EventSchema.js:45-49 | every event status is accepted back from its spelling |
| EventSchema.BlankEvent | Models/EventSchema.js:5-49 | the defaults: planned, price 0, no officiant; valid when the four required texts are non-empty |
| EventController.MarkUsedAt | Controllers/eventController.js:51-59 | the picked agreement becomes used with its submission stamp and the same parties; no other agreement changes |
| EventController.NewEvent | Controllers/eventController.js:36-40 | an event is saved iff title, description, ceremony type and owner are truthy and the status is absent or in the enum; its price is the computed one, not the body's |
| EventController.CreateEvent | Controllers/eventController.js:7-88 | missing fields, then no officiant-signed agreement of the client, then the validators (once the fields are present and a signed agreement exists, the only refusal is the validator's), and every refusal changes nothing; the event is priced from a signed agreement of the client; a submitted event marks some agreement of the client used, resets the client's flag and notifies the officiant; a submitted event whose client id is not an ObjectId is stored and answered with 500, with none of those effects |
| EventController.SubmissionConsumesOnlyAgreement | Controllers/eventController.js:19-59 | with one agreement per client, a submission leaves the client with no signed agreement |
| EventController.SignedAgreementMaySurviveSubmission | Controllers/eventController.js:51-53 | the lookup matches the client only, so it may mark another agreement and leave the signed one usable again |
| EventController.Patched | Controllers/eventController.js:133-136 | the validated update is refused iff a required path is set to "" or the status is not in the enum; otherwise each given path (title, description, ceremony type, owner, price, officiant, status) replaces the stored one and each absent path keeps it, script entries given override stored ones and the rest are kept, createdAt and validity are kept |
| EventController.PatchedEmptyIsIdentity | Controllers/eventController.js:133-136 | an empty update leaves the event as it was |
| EventController.UpdateNotices | Controllers/eventController.js:179-192 | the officiant is notified on a move into submitted, and the client exactly when the result is completed |
| EventController.Reprice | Controllers/eventController.js:119-131 | only on a move into submitted, the price becomes that of some agreement of the (client, officiant) pair, if any |
| EventController.SubmitCreated | Controllers/eventController.js:42-77 | with a well-formed client id, the client's flag is reset, an agreement of the client is marked used and the officiant is notified; with a malformed one, 500 and nothing changes |
| EventController.SubmissionEffects | Controllers/eventController.js:138-184 | Ok iff the client id is well formed; then the client's flag is reset, with an officiant some matching agreement is marked used, and the officiant is notified; otherwise 500 and nothing changes |
| EventController.UpdateEvent | Controllers/eventController.js:108-199 | not found changes nothing; then repricing, the validated write, the submission effects on a move into submitted only, and the completion notice; a move into submitted with a malformed client id keeps the write and answers 500 with no effects and no notice |
| EventController.AssignOfficiant | Controllers/eventController.js:273-346 | both fields, the event, the officiant's account, its role and its availability are checked in that order; the event's officiant is then written; a well-formed client id gives Ok and notifies both sides, a malformed one answers 500 with no notice |
| EventController.EventsByRole | Controllers/eventController.js:240-255 | filters by officiant for the role "officiant" and by owner for every other role |
| EventController.AdminSeesOwnedEvents | Controllers/eventController.js:243-248 | an admin gets the same listing as a client |
| UserSchema.ParseRole | Models/UserCredential.js:10 | the role validator accepts exactly the three spellings |
| UserSchema.RoleNameRoundTrip | Models/UserCredential.js:10 | every role is accepted back from its spelling |
| UserSchema.HashOnSave | Models/UserCredential.js:48-53 | the digest is replaced only when a new password is saved, and then it matches that password |
| UserSchema.ChangedPasswordReplacesOld | Models/UserCredential.js:48-58 | after a re-hash the new password matches and every other one fails |
| UserSchema.Utf16Length | Models/UserCredential.js:9 | JavaScript's string length lies between the character count and twice it |
| UserSchema.Utf16LengthConcat | Models/UserCredential.js:9 | the JavaScript length of a concatenation is the sum of the lengths |
| UserSchema.MinLengthInCodeUnits | Models/UserCredential.js:9 | the six-unit minimum passes every six-character password, refuses every two-character one, and passes three characters outside the Basic Multilingual Plane |
| UserSchema.Lower | Models/UserCredential.js:8 | lower-casing keeps the length and maps each character |
| UserSchema.LowerIdempotent | Models/UserCredential.js:8 | lower-casing a lower-cased email changes nothing |
| UserSchema.NewUser | Models/UserCredential.js:8-45 | the defaults: role user, AgreementAccepted false, available, unverified, no refresh token, experience 0; the email lower-cased and the password matching |
| UserController.RegistrationAttrs | Controllers/UserController.js:32 | the display name is partner_1 when truthy, else partner_2 |
| UserController.RegisterUser | Controllers/UserController.js:22-118 | a taken email is refused first, then the validators; past both the new unverified client is stored, and the reply is Ok iff the verification mail was sent, a server error otherwise; emails stay unique |
| UserController.FindByEmail | Controllers/UserController.js:26 | returns a user with the lower-cased email, and none exactly when there is none |
| UserController.SocialLogin | Controllers/UserController.js:122-154 | an email is required; an unknown email creates a verified account; the issued refresh token is stored on the account in both cases; emails stay unique |
| UserController.LoginUser | Controllers/UserController.js:192-210 | unknown email, then an absent password (the comparison rejects and nothing answers), then password mismatch, then unverified, each as an iff; only past all four is the token stored |
| UserController.RefreshToken | Controllers/UserController.js:213-243 | no token is refused; Ok iff the decoded account stores exactly the presented token; Ok rotates the stored token and anything else changes nothing |
| UserController.RotationRetiresOldToken | Controllers/UserController.js:222-236 | after a rotation to a different token the old token is refused and the new one accepted |
| UserController.SameTokenRotationKeepsIt | Controllers/UserController.js:227-236 | a rotation that re-issues the presented token leaves it accepted |
| UserController.LogoutUser | Controllers/UserController.js:246-256 | a falsy token changes nothing; otherwise an account holding the token has it cleared, or no account holds it |
| UserController.LogoutRetiresToken | Controllers/UserController.js:250-253 | a logged-out token no longer refreshes its account |
| UserController.ChangePassword | Controllers/UserController.js:410-439 | both passwords, the account, the old password and the length are checked in that order; Ok iff all pass, and then exactly the new password matches |
| UserController.Selected | Controllers/UserController.js:457-465 | exactly the listed fields present in the body and not null or "" |
| UserController.CollectUpdates | Controllers/UserController.js:457-465 | the loop builds exactly the selection of the allow-list |
| UserController.ProfilePictureUrlAsWrittenMissesFile | Controllers/UserController.js:467-471 | the address as written is served from uploads/, not from the directory the default upload stored the picture in |
| UserController.ProfilePictureUrl | Middleware/upload.js:17-19 | the corrected address is served from the storage directory of profilePicture |
| UserController.UpdateUserPictureMissesFile | Controllers/UserController.js:467-471 | after updateUser with an uploaded picture, the saved address is the one as written and is served from uploads/, not from the storage directory |
| UserController.ProfileUpdatedIntended | Middleware/upload.js:17-19 | the corrected update serves the uploaded picture from its storage directory and differs from updateUser's write in the picture address alone |
| UserController.PictureRewrite | Controllers/UserController.js:467-477 | writing one picture address equals writing another and then overwriting the picture alone |
| UserController.Strict | Models/UserCredential.js:5-46 | keeps exactly the schema paths of an update, with their values |
| UserController.UpdateUser | Controllers/UserController.js:442-492 | an unknown account is not found; otherwise the strict-mode write of the selected fields and, for an uploaded file, the picture address as written, with updatedAt set |
| UserController.UpdatesAt | Controllers/UserController.js:446-477 | a key other than profilePicture is in the update document iff it is allow-listed and given, with the body's value; profilePicture is in it iff a picture address is written, with that address |
| UserController.ProfileUpdateFrame | Controllers/UserController.js:442-492 | email, password, role and token never change; keys outside the allow-list and blank fields keep their values; given allow-listed schema paths take the body's value; the picture is the written address, or unchanged when none is written |
| UserController.AllowDownloadNeverUpdated | Controllers/UserController.js:453 | the allow-list spells `allowDownoad`, so allowDownload never changes |
| Upload.Destination | Middleware/upload.js:16-30 | profilePicture goes to uploads/profiles, portfolio to uploads/portfolios, the three signatures to uploads/signatures, and any other field to uploads/misc |
| Upload.Extname | Middleware/upload.js:39 | the extension is empty or a single dot-led tail of the name |
| Upload.ExtnameEmpty | Middleware/upload.js:39 | the extension is empty iff no dot follows the first character or the name is ".." |
| Upload.ApplicantFileFilter | Middleware/upload.js:64-97 | accepts iff an image field has an image extension or the portfolio is a PDF, in any letter case; refuses as an unexpected field exactly the other fields |
| Upload.FieldOfStoredFilename | Middleware/upload.js:36-42 | the field a stored name was made for can be read back from it |
| Upload.StoredFilenameKeepsExtension | Middleware/upload.js:36-42 | the stored name keeps the extension the filters judged |
| Upload.ServedPath | index.js:18 | a served path is the address minus the base URL |
| Upload.PublicUrlIsServed | index.js:18 | a public address is served from the directory and name it was built from |
| Upload.SignatureUrlsAreServed | Controllers/AgreementController.js:278-287 | signature addresses point into the signature storage directory |
| Upload.SignatureRouteLimits | Middleware/upload.js:100-119 | the default export refuses a file over 1 MiB and a fourth file; the profile upload refuses a second file |
| Upload.SignatureFilterExamples | Middleware/upload.js:72-75 | an upper-case .PNG signature passes and a PDF signature does not |
| EmailService.RecipientName | Services/EmailService.js:46-47 | name, else partner_1, else partner_2, else "User"; never empty |
| EmailService.Preview | Services/EmailService.js:51-54 | at most 103 characters; short content is unchanged; longer content is its first 100 characters and "..." |
| EmailService.LongPreviewShortens | Services/EmailService.js:51-54 | a message longer than a full preview gets shorter |
| EmailService.PreviewIdempotent | Services/EmailService.js:51-54 | previewing a preview changes nothing, for every message |
| EmailService.SubjectMarksOfficiant | Services/EmailService.js:60-62 | the two subjects differ exactly by " (Officiant)" after the sender's name |
| EmailService.StyleFor | Services/EmailService.js:104-108 | the gradient starts at the icon colour and ends at the role's second colour |
| EmailService.StyleConsistent | Services/EmailService.js:104-108 | one flag selects the title and the colours, and the two styles differ in each |
| EmailService.OfflineNotification | Services/EmailService.js:27-91 | no mail iff the recipient is unknown, has no email, or the content is absent (its length throws and the catch gives false); otherwise the mail to that email with the greeting, the preview of the content, the subject and the style; true only if delivered |
| ReviewSchema.NewReview | Models/Review.js:45-51 | a new review is visible and both stamps are the creation time |
| ReviewController.Missing | Controllers/ReviewController.js:26-33 | a field is reported iff it is required and falsy |
| ReviewController.MissingEmptyIffAllGiven | Controllers/ReviewController.js:17-33 | the report is empty iff the guard passes |
| ReviewController.RequiredFieldNames | Controllers/ReviewController.js:27-33 | the report uses the seven names in their order |
| ReviewController.CollectMissing | Controllers/ReviewController.js:26-33 | the seven pushes build exactly the missing fields in declared order, empty iff all are given |
| ReviewController.Submitted | Controllers/ReviewController.js:39-48 | the created review is visible, keeps the rating and officiant, and is valid when the rating is in bounds |
| ReviewController.CreateReview | Controllers/ReviewController.js:5-64 | missing fields iff the guard fails, listing them; Ok iff all are given and 1 ≤ rating ≤ 5, storing a valid review and notifying the officiant; otherwise nothing changes |
| ReviewController.ReviewsOf | Controllers/ReviewController.js:73 | exactly the officiant's reviews |
| ReviewController.VisibleReviews | Controllers/ReviewController.js:111 | exactly the visible reviews |
| ReviewController.ReviewsForOfficiant | Controllers/ReviewController.js:67-78 | refused iff the id is empty; otherwise every review of the officiant, hidden ones included |
| ReviewController.UpdateReviewVisibility | Controllers/ReviewController.js:81-106 | no flag first, then not found; Ok iff both pass, and only the flag and its stamp change |
| ReviewController.HidingUnlists | Controllers/ReviewController.js:89-93 | hiding removes exactly that review from both public listings and keeps the officiant's full list |
| ReviewController.PublicReviews | Controllers/ReviewController.js:109-180 | the visible reviews when there are any, else the four samples |
| ReviewController.PublicListingShowsOnlyVisible | Controllers/ReviewController.js:109-180 | the public listing never shows a hidden review, and each sample is visible and valid |
| ReviewController.SampleReviews | Controllers/ReviewController.js:113-173 | the samples belong to two officiants, two each, and only the third is rated below five |
| ReviewController.PublicReviewsForOfficiant | Controllers/ReviewController.js:183-191 | exactly the officiant's visible reviews |
| ReviewController.OfficiantPublicIsVisiblePart | Controllers/ReviewController.js:183-191 | an officiant's public reviews are the visible part of the full list and part of the public listing |
| ApplicantController.Languages | Controllers/ApplicantController.js:62-68 | a list is kept; text becomes its parse, or a one-item list when the parse fails |
| ApplicantController.ApplicationFilesAreServed | Controllers/ApplicantController.js:58-59 | both addresses are served from the storage directory of their field |
| ApplicantController.Submitted | Controllers/ApplicantController.js:70-82 | a complete submission is a valid pending application of the body's user |
| ApplicantController.CreateApplication | Controllers/ApplicantController.js:6-127 | already applied, then missing fields, then missing files, then an unparsable experience, each as an iff; Ok stores the application and notifies the user; one application per user is kept |
| ApplicantController.NoDuplicateAfterInsert | Controllers/ApplicantController.js:21-28 | inserting for a user with no application keeps one application per user |
| ApplicantController.Promoted | Controllers/ApplicantController.js:138 | the user the filter matched becomes an officiant with the given experience; nobody else changes, and no match changes nobody |
| ApplicantController.WithStatus | Controllers/ApplicantController.js:148-152 | only the status changes, and an absent status changes nothing |
| ApplicantController.UpdateApplicationStatus | Controllers/ApplicantController.js:130-168 | a malformed application id is unanswered (the read at line 133 is outside the try); approval for an unknown id or with a malformed body userId is a server error before any write; any other status for an unknown id is not found; Ok iff the id exists; approval promotes a user the `_id` filter matches (any user when the body has no userId), nobody only when no user matches, and notifies the body's user |
| ApplicantController.StatusUpdateKeepsOnePerUser | Controllers/ApplicantController.js:148-152 | a status update keeps the ids and one application per user |
| ApplicantController.StatusMayLeaveEnum | Controllers/ApplicantController.js:148-152 | a status outside the enum is written and makes the record invalid |
| ApplicantController.ApprovalPromotesBodyUser | Controllers/ApplicantController.js:132-138 | the user promoted is the one named in the body, not the applicant |
| ApplicantController.AbsentUserIdMatchesEveryone | Controllers/ApplicantController.js:132-138 | with no userId in the body every stored user matches the `_id` filter, so approval always promotes someone when any user exists |
| ApplicantController.DeleteApplication | Controllers/ApplicantController.js:199-211 | Ok iff the id exists, and then exactly that application is removed |
| ApplicantController.WithdrawalAllowsReapplying | Controllers/ApplicantController.js:21-28 | after a withdrawal the duplicate check no longer sees the user |
| BillController.Closed | Controllers/BillController.js:18-20 | the event becomes completed at the bill's amount, nothing else changes, and it stays valid |
| BillController.CreateBill | Controllers/BillController.js:6-47 | not found iff an eventId is given and unknown, and then nothing changes; otherwise both parties are notified, the bill is stored and the named event, and only that one, is closed |
| BillController.ClosingTouchesOneEvent | Controllers/BillController.js:18-20 | closing an event keeps every other event and the set of ids |
| BillController.BillsForEvent | Controllers/BillController.js:63 | exactly the bills filed under the event id |
| BillController.BillsForAgreement | Controllers/BillController.js:65 | exactly the bills filed under the agreement id |
| BillController.GetBillById | Controllers/BillController.js:59-77 | a bill filed under the id as an event wins; otherwise one filed under it as an agreement; not found iff both are empty |
| BillController.StoredBillIsFound | Controllers/BillController.js:63-66 | a stored bill is found under its event id and under its agreement id |
| BillController.UpdateBillStatus | Controllers/BillController.js:96-111 | Ok iff the id exists; then only the status changes, and an absent status changes nothing |
| Store.SetAgreementAccepted | Controllers/AgreementController.js:370 | only the named user's AgreementAccepted changes, and an unknown id changes nothing |

## Left out

- Mail delivery and the HTML bodies are not modelled. This covers the transports, the verification mail's content, the templates and `testConnection`. Only the choices in the offline-message mail are modelled. Whether a mail was delivered is a parameter, both there and for registerUser's verification mail: a failed send answers 500 after the account is saved.
- The mail attempted by createAgreement is not modelled. It builds its transport through a call that throws, and the error is swallowed, so nothing is sent and the record and the notice are unaffected.
- JWT signing and verification are parameters: the issued token and the decoded id.
- bcrypt's salt and cost are abstracted: a digest stands for the password it was made from.
- `createNotification` lives in a controller that is not part of this model. Its calls are recorded in the `notices` outbox as a recipient and a kind; the texts are not modelled.
- Clock values are plain numbers. Date casting, locale formatting and sorting by `createdAt` are not modelled.
- JavaScript numbers are whole numbers here. Floating-point money, `Number` casting and `toFixed` are not modelled.
- The filesystem side effects of uploads are not modelled: directory creation, the random part of the name suffix and the `fs.unlink` cleanup.
- Concurrency is not modelled; handlers run one at a time.
- The schedule linkage in createAgreement is not modelled, since it writes a record with no rule attached.
- These read-only listings are not modelled, since each returns a whole collection or a record by id with no rule:
  - getAgreementById, getAllAgreements and getAllAgreementsByUserId;
  - getEventById, getAllEvents and getEventsByUserAndOfficiant;
  - getApplicationById and getAllApplications;
  - getAllBills and getBillsByUserId.
- deleteEvent, verifyEmail, forgetPassword, resetPassword, getUser, getAllUsers, getOfficiants, getOfficiantDetails, deleteUser and getDashboard are outside the modelled core.
- The bill schema file is not part of this model. A bill holds the fields the handlers read, and its save is taken to succeed.
- The applicant `language` field: the required-array validation of the parsed list is not modelled.
- When a handler saves a record it has already validated, the stored record is taken to pass validation again.
- Routing is not modelled: status codes and route wiring become the `Reply` values.
- UserController.RegisterUser: the email is taken to be present. An absent email would drop out of the duplicate lookup and match any user; that case is not modelled.
- UserController.LoginUser: the email is taken to be present, for the reason given for RegisterUser.
- Common.WellFormedId: it is checked where a malformed id reaches a lookup by `_id` after the handler has already written something, or outside a try. These are the stored client ids in AgreementController.OfficiantListing, AgreementController.MarkPaymentCompleted, AgreementController.UploadOfficiantSignature, EventController.CreateEvent (through SubmitCreated), EventController.UpdateEvent (through SubmissionEffects) and EventController.AssignOfficiant, and both ids in ApplicantController.UpdateApplicationStatus. An id that comes from the request and is used by a handler's first lookup is not checked: it is looked up among the stored keys like any other id. The fresh id each creating handler takes is an unconstrained parameter (it need only be unused), so the model can store a record under a key that is not an ObjectId and later find it by that key; Mongoose generates ObjectIds for new records. For a malformed request id Mongoose throws a cast error, which those handlers' try blocks answer with 500. Examples are ApplicantController.js:202, ReviewController.js:89, BillController.js:14 and :99, the first lookup of each agreement and event handler, and the officiant lookup at eventController.js:293. The model instead answers as the stored keys decide. When no record has that key, a read answers not found and a write by an `_id` filter goes ahead as if no document matched; nothing has been written, so only the reply differs. When a record was stored under that malformed key, the model finds it and carries out the handler's writes, where the source writes nothing and answers 500. The 12-character strings that some ObjectId versions also accept are not modelled.
- ApplicantController.UpdateApplicationStatus, ApplicantController.AppliedBefore, EventController.PairMatch: all three follow the one rule for an `undefined` filter value, which is that the key is dropped. Which of the matching records the store returns is a free choice. The model does not capture an order among records such as a natural or insertion order.
- UserController.SocialLogin: the response code that tells a new account from an existing one is not modelled.
- EventController.AssignOfficiant: the client's `currentOfficiant` is not a schema path, so the user write is a no-op and is not modelled.
- The sample reviews carry their creation date in both stamps; they have no separate update date.
- UserSchema.ChangedPasswordReplacesOld: "every other password fails" rests on the injective digest. bcrypt compares only the first 72 bytes of a password, so a different password that shares those bytes with the new one still passes comparePassword in the source.
- UserController.ChangePassword: the clause that the old password stops matching a changed digest rests on the injective digest. When the old and new passwords share their first 72 bytes, the old one still passes under bcrypt.
- UserController.LoginUser: refuses with InvalidCredentials any password other than the stored one. bcrypt's 72-byte limit makes the source accept a password that shares the stored one's first 72 bytes.
- UserSchema.Lower: folds only the ASCII letters. JavaScript's `toLowerCase` maps every cased letter, so emails that differ only in non-ASCII case are distinct accounts here.
- EmailService.Preview: counts characters as Unicode scalar values. The source slices UTF-16 code units, so content with characters outside the Basic Multilingual Plane is cut at a different place.
- UserController.RotationRetiresOldToken: requires the re-issued token to differ from the presented one. The token is signed from the account id and role (Controllers/UserController.js:13-16) with an issue time in whole seconds, so a refresh in the same second re-issues the identical token, and that token then stays valid (`SameTokenRotationKeepsIt`). Signing is a parameter here, so the model does not say when the two coincide.
- AgreementLifecycle.TwoFieldsNeedNotBeBothSignatures: the officiant-signature file it uses is refused by the route's field list (Routes/agreementRoute.js:33-36) before the handler runs, so the case is reachable only by calling the handler directly.

## Findings

| source | as written | input that shows it | evidently intended | confidence | as-written member | corrected member |
|---|---|---|---|---|---|---|
| Controllers/UserController.js:467-471 | the picture address is `baseUrl/uploads/<file>` | a profile update with an uploaded `profilePicture` on the user route, which uses the default upload export; that export stores the picture in `uploads/profiles` (Middleware/upload.js:17-19, 119) | `baseUrl/uploads/profiles/<file>`, the directory the storage wrote to | not executed | UserController.UpdateUserPictureMissesFile | UserController.ProfileUpdatedIntended |

`UserController.UpdateUser` saves the address as written. `UserController.ProfileUpdatedIntended` is the corrected update, and `UserController.ProfilePictureUrl` is its address.

Other behaviours the model reproduces as written, with a lemma for each:

- `used` is not a terminal status (`UsedAgreementCanBeSignedAgain`).
- The handler's two-file check counts fields, not partner signatures (`TwoFieldsNeedNotBeBothSignatures`); through the route only the two partner fields arrive (`SignaturesCompleteOnRoute`).
- createEvent marks an agreement of the client that need not be the signed one (`SignedAgreementMaySurviveSubmission`).
- An admin lists its own events (`AdminSeesOwnedEvents`).
- Payment confirmation has no status gate (`PaymentConfirmableFromAnyStatus`).
- `completed` is never written by the agreement handlers (`CompletedNeverEntered`).
- The applicant status update bypasses the enum (`StatusMayLeaveEnum`).
- Approval promotes the user named in the request body (`ApprovalPromotesBodyUser`). Without one it promotes whichever user the store picks (`AbsentUserIdMatchesEveryone`).
- The allow-list misspells `allowDownload` (`AllowDownloadNeverUpdated`).

createEvent has a reply for "no agreement to update". It cannot occur: the signed agreement found earlier always matches the lookup.
