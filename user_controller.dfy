/** The account handlers: registration, social login, login, the stored
    refresh token (issue, rotate, clear), password change and the profile
    update. Issued tokens, decoded token ids and the social-login random
    password come in as parameters; mail is not modelled. */
module UserController {
  import opened Common
  import opened UserSchema
  import opened Store
  import Upload

  /** `m` with `k` set to the value of `v`, when the request carries one. */
  function PutIfGiven(m: map<string, string>, k: string, v: Option<string>): (r: map<string, string>)
    ensures v.Some? ==> r == m[k := v.value]
    ensures v.None? ==> r == m
  {
    if v.Some? then m[k := v.value] else m
  }

  /** The profile registerUser stores: both partners as given and the
      display name `partner_1 || partner_2`. */
  function RegistrationAttrs(partner1: Option<string>, partner2: Option<string>): (m: map<string, string>)
    ensures Truthy(partner1) ==> "name" in m && m["name"] == partner1.value
    ensures !Truthy(partner1) && partner2.Some? ==> "name" in m && m["name"] == partner2.value
    ensures !Truthy(partner1) && partner2.None? ==> "name" !in m
    ensures m.Keys <= {"partner_1", "partner_2", "name"}
  {
    PutIfGiven(PutIfGiven(PutIfGiven(map[], "partner_1", partner1), "partner_2", partner2),
               "name", OrElse(partner1, partner2))
  }

  /** registerUser: a taken email is refused before anything else; then the
      schema validators (email required, password of at least six
      characters); then the new unverified user is stored and the
      verification mail sent. `mailSent` is whether the transport accepted
      it; a failed send is a server error, with the account already stored. */
  method RegisterUser(db: Db, partner1: Option<string>, partner2: Option<string>, email: string,
                      password: string, newId: Id, now: Time, mailSent: bool) returns (r: Reply)
    requires newId !in db.users
    modifies db`users
    ensures EmailInUse(old(db.users), email) ==> r == EmailTaken
    ensures !EmailInUse(old(db.users), email) && (email == "" || !PasswordLongEnough(password)) ==>
      r == ValidationFailed
    ensures r == Ok <==> !EmailInUse(old(db.users), email) && email != "" && PasswordLongEnough(password) && mailSent
    ensures r == ServerError <==>
      !EmailInUse(old(db.users), email) && email != "" && PasswordLongEnough(password) && !mailSent
    ensures r != Ok && r != ServerError ==> db.users == old(db.users)
    ensures r == Ok || r == ServerError ==>
      && db.users == old(db.users)[newId := NewUser(email, password, RegistrationAttrs(partner1, partner2), now)]
      && !db.users[newId].isVerified && db.users[newId].role == Client
    ensures EmailsUnique(old(db.users)) ==> EmailsUnique(db.users)
  {
    if EmailInUse(db.users, email) {
      return EmailTaken;
    }
    if email == "" || !PasswordLongEnough(password) {
      return ValidationFailed;
    }
    var u := NewUser(email, password, RegistrationAttrs(partner1, partner2), now);
    db.users := db.users[newId := u];
    r := if mailSent then Ok else ServerError;
  }

  /** Some user with this (lower-cased) email, if any. */
  method FindByEmail(db: Db, email: string) returns (found: Option<Id>)
    ensures found.Some? ==> found.value in db.users && db.users[found.value].email == Lower(email)
    ensures found.None? <==> !EmailInUse(db.users, email)
  {
    if !EmailInUse(db.users, email) {
      return None;
    }
    var i :| i in db.users && db.users[i].email == Lower(email);
    found := Some(i);
  }

  /** socialLogin: an email is required; an unknown email creates a verified
      account with a random password; in both cases the issued refresh token
      is stored on the account. */
  method SocialLogin(db: Db, email: Option<string>, partner1: Option<string>, partner2: Option<string>,
                     name: Option<string>, picture: Option<string>, randomPassword: string,
                     issued: string, newId: Id, now: Time) returns (r: Reply, uid: Option<Id>)
    requires newId !in db.users
    requires |randomPassword| == 32
    modifies db`users
    ensures !Truthy(email) ==> r == EmailRequired && uid.None? && db.users == old(db.users)
    ensures Truthy(email) ==>
      && r == Ok && uid.Some? && uid.value in db.users
      && db.users[uid.value].refreshToken == Some(issued)
      && db.users[uid.value].email == Lower(email.value)
    ensures Truthy(email) && EmailInUse(old(db.users), email.value) ==>
      && uid.value in old(db.users)
      && db.users == old(db.users)[uid.value := old(db.users)[uid.value].(refreshToken := Some(issued))]
    ensures Truthy(email) && !EmailInUse(old(db.users), email.value) ==>
      && uid == Some(newId)
      && var attrs := PutIfGiven(PutIfGiven(PutIfGiven(PutIfGiven(map[], "partner_1", partner1), "partner_2", partner2),
                                            "name", name), "profilePicture", picture);
      && db.users == old(db.users)[newId := NewUser(email.value, randomPassword, attrs, now).(
                                             isVerified := true, refreshToken := Some(issued))]
      && db.users[newId].isVerified
    ensures EmailsUnique(old(db.users)) ==> EmailsUnique(db.users)
  {
    if !Truthy(email) {
      return EmailRequired, None;
    }
    var found := FindByEmail(db, email.value);
    var id: Id;
    if found.None? {
      var attrs := PutIfGiven(map[], "partner_1", partner1);
      attrs := PutIfGiven(attrs, "partner_2", partner2);
      attrs := PutIfGiven(attrs, "name", name);
      attrs := PutIfGiven(attrs, "profilePicture", picture);
      var u := NewUser(email.value, randomPassword, attrs, now).(isVerified := true);
      db.users := db.users[newId := u];
      id := newId;
    } else {
      id := found.value;
    }
    db.users := db.users[id := db.users[id].(refreshToken := Some(issued))];
    r, uid := Ok, Some(id);
  }

  /** loginUser: unknown email, then a password mismatch, then an unverified
      account; only past all three is the issued refresh token stored. With
      no password in the body the comparison rejects, and as the handler
      catches nothing it answers nothing and stores nothing. */
  method LoginUser(db: Db, email: string, password: Option<string>, issued: string)
      returns (r: Reply, uid: Option<Id>)
    modifies db`users
    ensures !EmailInUse(old(db.users), email) <==> r == UnknownUser
    ensures r == UnknownUser ==> uid.None?
    ensures r != UnknownUser ==>
      && uid.Some? && uid.value in old(db.users) && old(db.users)[uid.value].email == Lower(email)
      && var u := old(db.users)[uid.value];
      && (r == Unanswered <==> password.None?)
      && (r == InvalidCredentials <==> password.Some? && !PasswordMatches(password.value, u.password))
      && (r == NotVerified <==> password.Some? && PasswordMatches(password.value, u.password) && !u.isVerified)
      && (r == Ok <==> password.Some? && PasswordMatches(password.value, u.password) && u.isVerified)
    ensures r != Ok ==> db.users == old(db.users)
    ensures r == Ok ==> db.users == old(db.users)[uid.value := old(db.users)[uid.value].(refreshToken := Some(issued))]
  {
    uid := FindByEmail(db, email);
    if uid.None? {
      return UnknownUser, uid;
    }
    if password.None? {
      return Unanswered, uid;
    }
    var u := db.users[uid.value];
    if !PasswordMatches(password.value, u.password) {
      return InvalidCredentials, uid;
    }
    if !u.isVerified {
      return NotVerified, uid;
    }
    u := u.(refreshToken := Some(issued));
    db.users := db.users[uid.value := u];
    r := Ok;
  }

  /** A presented refresh token passes when the account its signature names
      still stores exactly that token. `decoded` is the id read from a token
      whose signature verifies, None when verification throws. */
  predicate TokenAccepted(users: map<Id, User>, token: Option<string>, decoded: Option<Id>)
  {
    Truthy(token) && decoded.Some? && decoded.value in users
    && users[decoded.value].refreshToken == Some(token.value)
  }

  /** refreshToken: no token is 401, a token that fails verification or does
      not match the stored one is 403; a match rotates the stored token. */
  method RefreshToken(db: Db, token: Option<string>, decoded: Option<Id>, issued: string) returns (r: Reply)
    modifies db`users
    ensures !Truthy(token) ==> r == NoToken
    ensures Truthy(token) && !TokenAccepted(old(db.users), token, decoded) ==> r == InvalidToken
    ensures r == Ok <==> TokenAccepted(old(db.users), token, decoded)
    ensures r != Ok ==> db.users == old(db.users)
    ensures r == Ok ==>
      db.users == old(db.users)[decoded.value := old(db.users)[decoded.value].(refreshToken := Some(issued))]
  {
    if !Truthy(token) {
      return NoToken;
    }
    if decoded.None? {
      return InvalidToken;
    }
    var id := decoded.value;
    if id !in db.users || db.users[id].refreshToken != Some(token.value) {
      return InvalidToken;
    }
    db.users := db.users[id := db.users[id].(refreshToken := Some(issued))];
    r := Ok;
  }

  /** After a rotation the old token is refused and the new one accepted. */
  lemma RotationRetiresOldToken(users: map<Id, User>, token: string, id: Id, issued: string)
    requires TokenAccepted(users, Some(token), Some(id))
    requires issued != token && issued != ""
    ensures var rotated := users[id := users[id].(refreshToken := Some(issued))];
      && !TokenAccepted(rotated, Some(token), Some(id))
      && TokenAccepted(rotated, Some(issued), Some(id))
  {
  }

  /** A re-issue that reproduces the presented token (one signed in the same
      second for the same account) leaves that token accepted. */
  lemma SameTokenRotationKeepsIt(users: map<Id, User>, token: string, id: Id)
    requires TokenAccepted(users, Some(token), Some(id))
    ensures TokenAccepted(users[id := users[id].(refreshToken := Some(token))], Some(token), Some(id))
  {
  }

  /** logoutUser: a falsy token changes nothing; otherwise some account
      holding that token (`cleared`) has its token removed. */
  method LogoutUser(db: Db, token: Option<string>) returns (r: Reply, cleared: Option<Id>)
    modifies db`users
    ensures r == Ok
    ensures !Truthy(token) ==> cleared.None?
    ensures cleared.None? ==> db.users == old(db.users)
    ensures Truthy(token) && cleared.None? ==>
      forall i :: i in old(db.users) ==> old(db.users)[i].refreshToken != Some(token.value)
    ensures cleared.Some? ==>
      && Truthy(token) && cleared.value in old(db.users)
      && old(db.users)[cleared.value].refreshToken == Some(token.value)
      && db.users == old(db.users)[cleared.value := old(db.users)[cleared.value].(refreshToken := None)]
  {
    r, cleared := Ok, None;
    if !Truthy(token) {
      return;
    }
    if exists i :: i in db.users && db.users[i].refreshToken == Some(token.value) {
      var i :| i in db.users && db.users[i].refreshToken == Some(token.value);
      db.users := db.users[i := db.users[i].(refreshToken := None)];
      cleared := Some(i);
    }
  }

  /** A logged-out token no longer refreshes the account that held it. */
  lemma LogoutRetiresToken(users: map<Id, User>, token: string, id: Id)
    requires id in users && users[id].refreshToken == Some(token)
    ensures TokenAccepted(users, Some(token), Some(id)) || token == ""
    ensures !TokenAccepted(users[id := users[id].(refreshToken := None)], Some(token), Some(id))
  {
  }

  /** changePassword: both passwords are required, the account must exist,
      the old password must match, and the new one passes the length
      validator; then the hook stores the digest of the new password. */
  method ChangePassword(db: Db, uid: Id, oldPassword: Option<string>, newPassword: Option<string>)
      returns (r: Reply)
    modifies db`users
    ensures !Truthy(oldPassword) || !Truthy(newPassword) ==> r == MissingFields
    ensures Truthy(oldPassword) && Truthy(newPassword) && uid !in old(db.users) ==> r == NotFound
    ensures Truthy(oldPassword) && Truthy(newPassword) && uid in old(db.users) ==>
      && (!PasswordMatches(oldPassword.value, old(db.users)[uid].password) ==> r == WrongPassword)
      && ((PasswordMatches(oldPassword.value, old(db.users)[uid].password) && !PasswordLongEnough(newPassword.value))
            ==> r == ValidationFailed)
    ensures r == Ok <==>
      && Truthy(oldPassword) && Truthy(newPassword) && uid in old(db.users)
      && PasswordMatches(oldPassword.value, old(db.users)[uid].password) && PasswordLongEnough(newPassword.value)
    ensures r != Ok ==> db.users == old(db.users)
    ensures r == Ok ==>
      && uid in old(db.users) && PasswordMatches(oldPassword.value, old(db.users)[uid].password)
      && db.users == old(db.users)[uid := old(db.users)[uid].(password := Bcrypt(newPassword.value))]
      && PasswordMatches(newPassword.value, db.users[uid].password)
      && (oldPassword != newPassword ==> !PasswordMatches(oldPassword.value, db.users[uid].password))
  {
    if !Truthy(oldPassword) || !Truthy(newPassword) {
      return MissingFields;
    }
    if uid !in db.users {
      return NotFound;
    }
    var u := db.users[uid];
    if !PasswordMatches(oldPassword.value, u.password) {
      return WrongPassword;
    }
    if !PasswordLongEnough(newPassword.value) {
      return ValidationFailed;
    }
    u := u.(password := HashOnSave(u.password, Some(newPassword.value)));
    db.users := db.users[uid := u];
    r := Ok;
  }

  /** A request-body value: JSON null, or text (absent keys are absent from the body map). */
  datatype FormValue = Null | Text(s: string)

  /** Neither undefined, null nor "". */
  predicate Given(v: FormValue)
  {
    v.Text? && v.s != ""
  }

  /** The fields updateUser copies from the body, spelled as in the source. */
  const AllowedFields: seq<string> :=
    ["partner_1", "partner_2", "phone", "bio", "bookingMoney", "location", "weddingDate", "allowDownoad"]

  /** The given body values of the listed fields. */
  function Selected(body: map<string, FormValue>, fields: seq<string>): (m: map<string, string>)
    ensures forall k :: k in m <==> k in fields && k in body && Given(body[k])
    ensures forall k :: k in m ==> k in body && body[k].Text? && m[k] == body[k].s
  {
    map k | k in body && k in fields && Given(body[k]) :: body[k].s
  }

  /** The forEach that fills `updateFields`. */
  method CollectUpdates(body: map<string, FormValue>) returns (fields: map<string, string>)
    ensures fields == Selected(body, AllowedFields)
  {
    fields := map[];
    var i := 0;
    while i < |AllowedFields|
      invariant 0 <= i <= |AllowedFields|
      invariant fields == Selected(body, AllowedFields[..i])
    {
      var f := AllowedFields[i];
      assert AllowedFields[..i + 1] == AllowedFields[..i] + [f];
      if f in body && Given(body[f]) {
        fields := fields[f := body[f].s];
      }
      i := i + 1;
    }
    assert AllowedFields[..i] == AllowedFields;
  }

  /** The address updateUser writes for an uploaded picture, as written. */
  function ProfilePictureUrlAsWritten(baseUrl: string, stored: string): string
  {
    baseUrl + "/uploads/" + stored
  }

  /** The address as written names a file outside the directory the default
      upload stores profile pictures in. */
  lemma ProfilePictureUrlAsWrittenMissesFile(baseUrl: string, stored: string)
    ensures Upload.ServedPath(baseUrl, ProfilePictureUrlAsWritten(baseUrl, stored)) == Some("uploads/" + stored)
    ensures Upload.ServedPath(baseUrl, ProfilePictureUrlAsWritten(baseUrl, stored))
            != Some(Upload.Destination("profilePicture") + "/" + stored)
  {
    assert "/uploads/" == "/" + "uploads" + "/";
    assert ProfilePictureUrlAsWritten(baseUrl, stored) == Upload.PublicUrl(baseUrl, "uploads", stored);
    Upload.PublicUrlIsServed(baseUrl, "uploads", stored);
    assert "uploads" + "/" + stored == "uploads/" + stored;
    assert |"uploads/" + stored| != |Upload.Destination("profilePicture") + "/" + stored|;
  }

  /** The corrected address: under the directory the storage picked. */
  function ProfilePictureUrl(baseUrl: string, stored: string): (url: string)
    ensures Upload.ServedPath(baseUrl, url) == Some(Upload.Destination("profilePicture") + "/" + stored)
  {
    Upload.PublicUrlIsServed(baseUrl, Upload.Destination("profilePicture"), stored);
    Upload.PublicUrl(baseUrl, Upload.Destination("profilePicture"), stored)
  }

  /** The picture address updateUser writes: present exactly when a file
      was uploaded, built as written. */
  function WrittenPicture(file: Option<string>, baseUrl: string): Option<string>
  {
    if Truthy(file) then Some(ProfilePictureUrlAsWritten(baseUrl, file.value)) else None
  }

  /** The update document: the selected fields and the picture address, if any. */
  function Updates(body: map<string, FormValue>, picture: Option<string>): map<string, string>
  {
    Selected(body, AllowedFields)
      + (if picture.Some? then map["profilePicture" := picture.value] else map[])
  }

  /** The paths of `m` the schema knows; strict mode drops the rest. */
  function Strict(m: map<string, string>): (s: map<string, string>)
    ensures forall k :: k in s <==> k in m && k in ProfilePaths
    ensures forall k :: k in s ==> s[k] == m[k]
  {
    map k | k in m && k in ProfilePaths :: m[k]
  }

  /** The account after a profile update writing `picture`. */
  function ProfileUpdated(u: User, body: map<string, FormValue>, picture: Option<string>, now: Time): User
  {
    u.(attrs := u.attrs + Strict(Updates(body, picture)), updatedAt := now)
  }

  /** updateUser: the allow-listed given fields and, for an uploaded file,
      the picture address as written are saved, `updatedAt` always; an
      unknown account is not found. */
  method UpdateUser(db: Db, uid: Id, body: map<string, FormValue>, file: Option<string>,
                    baseUrl: string, now: Time) returns (r: Reply)
    modifies db`users
    ensures uid !in old(db.users) ==> r == NotFound && db.users == old(db.users)
    ensures uid in old(db.users) ==>
      r == Ok && db.users == old(db.users)[uid := ProfileUpdated(old(db.users)[uid], body, WrittenPicture(file, baseUrl), now)]
  {
    var updateFields := CollectUpdates(body);
    if Truthy(file) {
      updateFields := updateFields["profilePicture" := ProfilePictureUrlAsWritten(baseUrl, file.value)];
    }
    if uid !in db.users {
      return NotFound;
    }
    assert updateFields == Updates(body, WrittenPicture(file, baseUrl));
    var u := db.users[uid];
    u := u.(attrs := u.attrs + Strict(updateFields), updatedAt := now);
    db.users := db.users[uid := u];
    r := Ok;
  }

  /** What the update document holds for one key. */
  lemma UpdatesAt(body: map<string, FormValue>, picture: Option<string>, k: string)
    ensures var m := Updates(body, picture);
      && (k != "profilePicture" ==> (k in m <==> k in AllowedFields && k in body && Given(body[k])))
      && (k != "profilePicture" && k in m ==> m[k] == body[k].s)
      && ("profilePicture" in m <==> picture.Some?)
      && (picture.Some? ==> m["profilePicture"] == picture.value)
  {
  }

  /** One attribute after a strict-mode write of `m`. */
  lemma AttrAfterWrite(u: User, m: map<string, string>, now: Time, k: string)
    ensures Attr(u.(attrs := u.attrs + Strict(m), updatedAt := now), k)
            == if k in m && k in ProfilePaths then Some(m[k]) else Attr(u, k)
  {
  }

  /** A profile update changes only allow-listed schema paths and the
      picture; a field the body leaves blank keeps its stored value. */
  lemma ProfileUpdateFrame(u: User, body: map<string, FormValue>, picture: Option<string>,
                           now: Time, k: string)
    ensures var v := ProfileUpdated(u, body, picture, now);
      && v.email == u.email && v.password == u.password && v.role == u.role
      && v.refreshToken == u.refreshToken && v.updatedAt == now
      && (k !in AllowedFields && k != "profilePicture" ==> Attr(v, k) == Attr(u, k))
      && (k in AllowedFields && k in ProfilePaths && k in body && Given(body[k]) ==> Attr(v, k) == Some(body[k].s))
      && (k != "profilePicture" && !(k in body && Given(body[k])) ==> Attr(v, k) == Attr(u, k))
      && Attr(v, "profilePicture") == (if picture.Some? then picture else Attr(u, "profilePicture"))
  {
    UpdatesAt(body, picture, k);
    AttrAfterWrite(u, Updates(body, picture), now, k);
    AttrAfterWrite(u, Updates(body, picture), now, "profilePicture");
  }

  /** The allow-list spells `allowDownoad`, which is not a schema path, so
      no profile update ever changes `allowDownload`. */
  lemma AllowDownloadNeverUpdated(u: User, body: map<string, FormValue>, picture: Option<string>, now: Time)
    ensures Attr(ProfileUpdated(u, body, picture, now), "allowDownload") == Attr(u, "allowDownload")
    ensures "allowDownoad" !in ProfilePaths
  {
    ProfileUpdateFrame(u, body, picture, now, "allowDownload");
  }

  /** After updateUser with an uploaded picture, the saved address is
      served from uploads/, not from where the default upload stored it. */
  lemma UpdateUserPictureMissesFile(u: User, body: map<string, FormValue>, file: Option<string>,
                                    baseUrl: string, now: Time)
    requires Truthy(file)
    ensures var v := ProfileUpdated(u, body, WrittenPicture(file, baseUrl), now);
      && Attr(v, "profilePicture") == Some(ProfilePictureUrlAsWritten(baseUrl, file.value))
      && Upload.ServedPath(baseUrl, Attr(v, "profilePicture").value) == Some("uploads/" + file.value)
      && Upload.ServedPath(baseUrl, Attr(v, "profilePicture").value)
         != Some(Upload.Destination("profilePicture") + "/" + file.value)
  {
    ProfileUpdateFrame(u, body, WrittenPicture(file, baseUrl), now, "profilePicture");
    ProfilePictureUrlAsWrittenMissesFile(baseUrl, file.value);
  }

  /** The corrected profile update: the handler's update with the picture
      address under the storage directory; it serves the uploaded file and
      differs from the update as written in that address alone. */
  function ProfileUpdatedIntended(u: User, body: map<string, FormValue>, file: Option<string>,
                                  baseUrl: string, now: Time): (v: User)
    ensures Truthy(file) ==>
      && Attr(v, "profilePicture").Some?
      && Upload.ServedPath(baseUrl, Attr(v, "profilePicture").value)
         == Some(Upload.Destination("profilePicture") + "/" + file.value)
    ensures var w := ProfileUpdated(u, body, WrittenPicture(file, baseUrl), now);
      v == if Truthy(file) then w.(attrs := w.attrs["profilePicture" := ProfilePictureUrl(baseUrl, file.value)]) else w
  {
    var picture := if Truthy(file) then Some(ProfilePictureUrl(baseUrl, file.value)) else None;
    ProfileUpdateFrame(u, body, picture, now, "profilePicture");
    if Truthy(file) then
      PictureRewrite(u.attrs, Selected(body, AllowedFields), ProfilePictureUrlAsWritten(baseUrl, file.value),
                     ProfilePictureUrl(baseUrl, file.value));
      ProfileUpdated(u, body, picture, now)
    else
      ProfileUpdated(u, body, picture, now)
  }

  /** Writing one picture address is writing another and then overwriting
      the picture alone. */
  lemma PictureRewrite(attrs: map<string, string>, selected: map<string, string>, a: string, b: string)
    ensures attrs + Strict(selected + map["profilePicture" := b])
            == (attrs + Strict(selected + map["profilePicture" := a]))["profilePicture" := b]
  {
    var l := attrs + Strict(selected + map["profilePicture" := b]);
    var r := (attrs + Strict(selected + map["profilePicture" := a]))["profilePicture" := b];
    forall k
      ensures k in l <==> k in r
      ensures k in l ==> l[k] == r[k]
    {
    }
  }
}
