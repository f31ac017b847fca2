/** The User record (couples, officiants and admins), the password hook and
    the password comparison. bcrypt is kept abstract: a digest remembers the
    password it was made from, and nothing else about it is modelled. */
module UserSchema {
  import opened Common

  datatype Role = Client | Admin | Officiant

  function RoleName(r: Role): string
  {
    match r
    case Client => "user"
    case Admin => "admin"
    case Officiant => "officiant"
  }

  function ParseRole(t: string): (r: Option<Role>)
    ensures r.Some? ==> RoleName(r.value) == t
  {
    if t == "user" then Some(Client)
    else if t == "admin" then Some(Admin)
    else if t == "officiant" then Some(Officiant)
    else None
  }

  lemma RoleNameRoundTrip(r: Role)
    ensures ParseRole(RoleName(r)) == Some(r)
  {
  }

  /** A bcrypt digest of `secret`, salt and cost rounds abstracted away. */
  datatype Digest = Bcrypt(secret: string)

  /** comparePassword. */
  predicate PasswordMatches(entered: string, stored: Digest)
  {
    stored == Bcrypt(entered)
  }

  /** The pre-save hook: the password is re-hashed only when the save carries
      a newly assigned plain password; otherwise the stored digest is kept. */
  function HashOnSave(stored: Digest, plain: Option<string>): (d: Digest)
    ensures plain.None? ==> d == stored
    ensures plain.Some? ==> PasswordMatches(plain.value, d)
  {
    match plain
    case None => stored
    case Some(p) => Bcrypt(p)
  }

  /** After a password change, the new password passes comparePassword and
      any other password fails it. */
  lemma ChangedPasswordReplacesOld(stored: Digest, p: string, q: string)
    requires p != q
    ensures PasswordMatches(p, HashOnSave(stored, Some(p)))
    ensures !PasswordMatches(q, HashOnSave(stored, Some(p)))
  {
  }

  const MinPasswordLength: nat := 6

  /** The length JavaScript gives a string: its UTF-16 code units, two for
      each character outside the Basic Multilingual Plane. */
  function Utf16Length(s: string): (n: nat)
    ensures |s| <= n <= 2 * |s|
  {
    if s == [] then 0 else (if s[0] as int > 0xFFFF then 2 else 1) + Utf16Length(s[1..])
  }

  /** Utf16Length adds up over concatenation. */
  lemma {:induction false} Utf16LengthConcat(s: string, t: string)
    ensures Utf16Length(s + t) == Utf16Length(s) + Utf16Length(t)
  {
    if s != [] {
      assert (s + t)[1..] == s[1..] + t;
      Utf16LengthConcat(s[1..], t);
    } else {
      assert s + t == t;
    }
  }

  /** The schema's minlength validator, applied to the plain password before
      the hook runs; it counts UTF-16 code units. */
  predicate PasswordLongEnough(p: string)
  {
    Utf16Length(p) >= MinPasswordLength
  }

  /** Six characters always pass the minimum, and three characters outside
      the Basic Multilingual Plane already do. */
  lemma MinLengthInCodeUnits(p: string)
    ensures |p| >= MinPasswordLength ==> PasswordLongEnough(p)
    ensures |p| < MinPasswordLength / 2 ==> !PasswordLongEnough(p)
    ensures PasswordLongEnough("\U{1F600}\U{1F600}\U{1F600}")
  {
    var e := "\U{1F600}\U{1F600}\U{1F600}";
    assert e[1..][1..][1..] == [];
  }

  /** `lowercase: true` on email; ASCII letters only (no Unicode case mapping). */
  function LowerChar(c: char): char
  {
    if 'A' <= c <= 'Z' then (c as int + 32) as char else c
  }

  function Lower(s: string): (r: string)
    ensures |r| == |s|
    ensures forall i :: 0 <= i < |s| ==> r[i] == LowerChar(s[i])
  {
    if s == [] then [] else [LowerChar(s[0])] + Lower(s[1..])
  }

  /** Stored emails are already lower-case, so lowering is idempotent. */
  lemma {:induction false} LowerIdempotent(s: string)
    ensures Lower(Lower(s)) == Lower(s)
  {
    var l := Lower(s);
    assert |Lower(l)| == |l|;
    forall i | 0 <= i < |l|
      ensures Lower(l)[i] == l[i]
    {
      assert l[i] == LowerChar(s[i]);
    }
  }

  /** Free-form profile attributes (partner_1, partner_2, name, phone, bio,
      bookingMoney, location, weddingDate, allowDownload, profilePicture) are
      kept as text under their schema path. */
  datatype User = User(
    email: string,
    password: Digest,
    role: Role,
    attrs: map<string, string>,
    agreementAccepted: bool,
    availability: bool,
    isVerified: bool,
    refreshToken: Option<string>,
    experience: int,
    createdAt: Time,
    updatedAt: Time)

  /** The schema paths a profile update can reach. A key outside this set is
      dropped by the document model's strict mode. */
  const ProfilePaths: set<string> :=
    {"partner_1", "partner_2", "name", "phone", "bio", "bookingMoney", "location",
     "weddingDate", "allowDownload", "profilePicture", "address", "specialization"}

  /** A new user with the schema defaults; `password` is the plain password it is saved with. */
  function NewUser(email: string, password: string, attrs: map<string, string>, now: Time): (u: User)
    ensures u.role == Client && !u.agreementAccepted && u.availability && !u.isVerified
    ensures u.refreshToken.None? && u.experience == 0
    ensures u.email == Lower(email) && PasswordMatches(password, u.password)
  {
    User(Lower(email), Bcrypt(password), Client, attrs, false, true, false, None, 0, now, now)
  }

  /** The optional attribute `k` of `u`. */
  function Attr(u: User, k: string): Option<string>
  {
    if k in u.attrs then Some(u.attrs[k]) else None
  }

  /** The unique index on email. */
  ghost predicate EmailsUnique(users: map<Id, User>)
  {
    forall i, j :: i in users && j in users && users[i].email == users[j].email ==> i == j
  }

  predicate EmailInUse(users: map<Id, User>, email: string)
  {
    exists i :: i in users && users[i].email == Lower(email)
  }
}
