/** The Review record a couple leaves for an officiant after an event. */
module ReviewSchema {
  import opened Common

  datatype Review = Review(
    userId: Id,
    userImageUrl: string,
    userName: string,
    rating: int,
    eventId: Id,
    ratingDescription: Option<string>,
    officiantId: Id,
    eventName: string,
    isVisible: bool,
    createdAt: Time,
    updatedAt: Time)

  const MinRating: int := 1
  const MaxRating: int := 5

  /** The schema validators: six required strings and a rating between 1 and 5. */
  predicate Storable(r: Review)
  {
    && r.userId != "" && r.userImageUrl != "" && r.userName != ""
    && r.eventId != "" && r.officiantId != "" && r.eventName != ""
    && MinRating <= r.rating <= MaxRating
  }

  /** A new review with the schema defaults: visible, both timestamps the creation time. */
  function NewReview(userId: Id, userImageUrl: string, userName: string, rating: int, eventId: Id,
                     ratingDescription: Option<string>, officiantId: Id, eventName: string,
                     now: Time): (r: Review)
    ensures r.isVisible && r.createdAt == now && r.updatedAt == now
    ensures r.rating == rating && r.officiantId == officiantId
  {
    Review(userId, userImageUrl, userName, rating, eventId, ratingDescription, officiantId,
           eventName, true, now, now)
  }
}
