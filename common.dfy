/** Shared vocabulary of the backend model: optional values, JavaScript
    truthiness of request fields, identifiers, time and handler replies. */
module Common {

  datatype Option<T> = None | Some(value: T)

  /** Database identifiers and user ids are opaque strings. */
  type Id = string

  /** A point in time, passed in by the caller (the model has no clock). */
  type Time = nat

  /** JavaScript truthiness of an optional text field: absent and "" are falsy. */
  predicate Truthy(s: Option<string>)
  {
    s.Some? && s.value != ""
  }

  /** One key of a query filter. A key whose value is `undefined` is dropped
      from the filter, so it matches every record; otherwise the stored value
      must equal it. */
  predicate KeyMatches(filter: Option<string>, stored: string)
  {
    filter.None? || stored == filter.value
  }

  /** A hexadecimal digit, in either case. */
  predicate IsHexDigit(c: char)
  {
    '0' <= c <= '9' || 'a' <= c <= 'f' || 'A' <= c <= 'F'
  }

  /** An id Mongoose casts to an ObjectId: 24 hexadecimal digits. Any other
      text makes a lookup by `_id` throw a cast error. */
  predicate WellFormedId(id: Id)
  {
    |id| == 24 && forall i :: 0 <= i < |id| ==> IsHexDigit(id[i])
  }

  /** `a || b` on optional text fields. */
  function OrElse(a: Option<string>, b: Option<string>): (r: Option<string>)
    ensures Truthy(r) <==> Truthy(a) || Truthy(b)
    ensures Truthy(a) ==> r == a
  {
    if Truthy(a) then a else b
  }

  /** `n || 0` on an optional number; 0 is falsy, so both branches agree on it. */
  function OrZero(n: Option<int>): int
  {
    if n.Some? then n.value else 0
  }

  /** What a request handler answers; each stands for one HTTP reply of the source. */
  datatype Reply =
    | Ok
    | NotFound
    | EditLocked
    | InvalidTransition
    | Incomplete
    | MissingFile
    | Forbidden
    | Protected
    | ValidationFailed
    | MissingFields
    | MissingReviewFields(names: seq<string>)
    | NoSignedAgreement
    | OfficiantNotFound
    | NotAnOfficiant
    | OfficiantUnavailable
    | EmailTaken
    | EmailRequired
    | UnknownUser
    | InvalidCredentials
    | NotVerified
    | NoToken
    | InvalidToken
    | WrongPassword
    | AlreadyApplied
    | MissingFiles
    | MissingVisibility
    | ServerError
      /** The handler's promise rejects outside any try/catch, so the handler
          itself sends no reply. */
    | Unanswered
}
