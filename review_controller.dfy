/** The review handlers: creating a review with its missing-field report,
    switching a review's visibility, and the listings shown by officiant and
    to the public, with the sample reviews shown when nothing is visible. */
module ReviewController {
  import opened Common
  import opened ReviewSchema
  import opened Store

  /** The body of a create request. An absent field is None; a rating is a
      number, and 0 is as falsy as an absent one. */
  datatype ReviewBody = ReviewBody(
    userId: Option<Id>,
    userImageUrl: Option<string>,
    userName: Option<string>,
    rating: Option<int>,
    eventId: Option<Id>,
    ratingDescription: Option<string>,
    officiantId: Option<Id>,
    eventName: Option<string>)

  /** The required fields of a review body. */
  datatype Field =
    | UserIdField | UserImageUrlField | UserNameField | RatingField
    | EventIdField | OfficiantIdField | EventNameField

  /** The name a reply uses for a field. */
  function FieldName(f: Field): string
  {
    match f
    case UserIdField => "userId"
    case UserImageUrlField => "userImageUrl"
    case UserNameField => "userName"
    case RatingField => "rating"
    case EventIdField => "eventId"
    case OfficiantIdField => "officiantId"
    case EventNameField => "eventName"
  }

  function FieldNames(fs: seq<Field>): (ns: seq<string>)
    ensures |ns| == |fs| && forall i :: 0 <= i < |fs| ==> ns[i] == FieldName(fs[i])
  {
    if fs == [] then [] else [FieldName(fs[0])] + FieldNames(fs[1..])
  }

  /** The required fields, in the order the reply names them. */
  const RequiredFields: seq<Field> :=
    [UserIdField, UserImageUrlField, UserNameField, RatingField, EventIdField, OfficiantIdField, EventNameField]

  /** Whether a required field of the body is truthy. */
  predicate Given(b: ReviewBody, f: Field)
  {
    match f
    case UserIdField => Truthy(b.userId)
    case UserImageUrlField => Truthy(b.userImageUrl)
    case UserNameField => Truthy(b.userName)
    case RatingField => b.rating.Some? && b.rating.value != 0
    case EventIdField => Truthy(b.eventId)
    case OfficiantIdField => Truthy(b.officiantId)
    case EventNameField => Truthy(b.eventName)
  }

  /** The guard of createReview: every required field is truthy. */
  predicate AllGiven(b: ReviewBody)
  {
    && Given(b, UserIdField) && Given(b, UserImageUrlField) && Given(b, UserNameField)
    && Given(b, RatingField) && Given(b, EventIdField) && Given(b, OfficiantIdField)
    && Given(b, EventNameField)
  }

  /** The fields among `fs` that are not given, keeping their order. */
  function Missing(b: ReviewBody, fs: seq<Field>): (m: seq<Field>)
    ensures |m| <= |fs|
    ensures forall f :: f in m <==> f in fs && !Given(b, f)
  {
    if fs == [] then []
    else (if Given(b, fs[0]) then [] else [fs[0]]) + Missing(b, fs[1..])
  }

  /** The report is assembled piece by piece: the missing fields of a
      concatenation are those of the first part followed by those of the
      second, so the reply lists fields in their declared order. */
  lemma {:induction false} MissingConcat(b: ReviewBody, xs: seq<Field>, ys: seq<Field>)
    ensures Missing(b, xs + ys) == Missing(b, xs) + Missing(b, ys)
  {
    if xs == [] {
      assert xs + ys == ys;
    } else {
      assert xs + ys != [];
      assert (xs + ys)[0] == xs[0];
      assert (xs + ys)[1..] == xs[1..] + ys;
      MissingConcat(b, xs[1..], ys);
    }
  }

  /** Extending a list of fields by one extends the report by that field
      exactly when it is not given. */
  lemma MissingSnoc(b: ReviewBody, fs: seq<Field>, f: Field)
    ensures Missing(b, fs + [f]) == Missing(b, fs) + (if Given(b, f) then [] else [f])
  {
    MissingConcat(b, fs, [f]);
    assert [f][1..] == [];
  }

  /** The report is empty exactly when the guard of createReview passes. */
  lemma MissingEmptyIffAllGiven(b: ReviewBody)
    ensures Missing(b, RequiredFields) == [] <==> AllGiven(b)
  {
    var m := Missing(b, RequiredFields);
    if m == [] {
      forall f: Field
        ensures Given(b, f)
      {
        assert RequiredFields[Position(f)] == f;
        assert f !in m;
      }
      assert Given(b, UserIdField) && Given(b, UserImageUrlField) && Given(b, UserNameField);
      assert Given(b, RatingField) && Given(b, EventIdField) && Given(b, OfficiantIdField);
      assert Given(b, EventNameField);
    } else {
      assert m[0] in m;
    }
  }

  /** Where a field stands in the required list: every field is required. */
  function Position(f: Field): (i: nat)
    ensures i < |RequiredFields| && RequiredFields[i] == f
  {
    match f
    case UserIdField => 0
    case UserImageUrlField => 1
    case UserNameField => 2
    case RatingField => 3
    case EventIdField => 4
    case OfficiantIdField => 5
    case EventNameField => 6
  }

  /** The reply's names: the seven source names, in this order. */
  lemma RequiredFieldNames()
    ensures FieldNames(RequiredFields) ==
      ["userId", "userImageUrl", "userName", "rating", "eventId", "officiantId", "eventName"]
  {
  }

  /** The seven checks visit the required fields in their declared order. */
  lemma RequiredFieldsInOrder()
    ensures [] + [UserIdField] + [UserImageUrlField] + [UserNameField] + [RatingField] + [EventIdField]
            + [OfficiantIdField] + [EventNameField] == RequiredFields
  {
  }

  /** One check of createReview: push the field when it is falsy. */
  method PushUnless(missing: seq<Field>, given: bool, f: Field) returns (m: seq<Field>)
    ensures m == missing + (if given then [] else [f])
  {
    m := missing;
    if !given {
      m := m + [f];
    }
  }

  /** The seven checks of createReview, each pushing a falsy field. */
  method CollectMissing(b: ReviewBody) returns (missing: seq<Field>)
    ensures missing == Missing(b, RequiredFields)
    ensures missing == [] <==> AllGiven(b)
  {
    missing := [];
    ghost var checked: seq<Field> := [];
    missing := PushUnless(missing, Given(b, UserIdField), UserIdField);
    MissingSnoc(b, checked, UserIdField);
    checked := checked + [UserIdField];
    missing := PushUnless(missing, Given(b, UserImageUrlField), UserImageUrlField);
    MissingSnoc(b, checked, UserImageUrlField);
    checked := checked + [UserImageUrlField];
    missing := PushUnless(missing, Given(b, UserNameField), UserNameField);
    MissingSnoc(b, checked, UserNameField);
    checked := checked + [UserNameField];
    missing := PushUnless(missing, Given(b, RatingField), RatingField);
    MissingSnoc(b, checked, RatingField);
    checked := checked + [RatingField];
    missing := PushUnless(missing, Given(b, EventIdField), EventIdField);
    MissingSnoc(b, checked, EventIdField);
    checked := checked + [EventIdField];
    missing := PushUnless(missing, Given(b, OfficiantIdField), OfficiantIdField);
    MissingSnoc(b, checked, OfficiantIdField);
    checked := checked + [OfficiantIdField];
    missing := PushUnless(missing, Given(b, EventNameField), EventNameField);
    MissingSnoc(b, checked, EventNameField);
    checked := checked + [EventNameField];
    RequiredFieldsInOrder();
    MissingEmptyIffAllGiven(b);
  }

  /** The review a complete body creates. */
  function Submitted(b: ReviewBody, now: Time): (r: Review)
    requires AllGiven(b)
    ensures r.isVisible && r.rating == b.rating.value && r.officiantId == b.officiantId.value
    ensures MinRating <= b.rating.value <= MaxRating ==> Storable(r)
  {
    NewReview(b.userId.value, b.userImageUrl.value, b.userName.value, b.rating.value, b.eventId.value,
              b.ratingDescription, b.officiantId.value, b.eventName.value, now)
  }

  /** createReview: the missing fields first; then the rating bounds, which
      the save enforces; a stored review notifies its officiant. */
  method CreateReview(db: Db, b: ReviewBody, newId: Id, now: Time) returns (r: Reply)
    requires newId !in db.reviews
    modifies db`reviews, db`notices
    ensures r.MissingReviewFields? <==> !AllGiven(b)
    ensures r.MissingReviewFields? ==> r.names == FieldNames(Missing(b, RequiredFields)) && r.names != []
    ensures r == Ok <==> AllGiven(b) && MinRating <= b.rating.value <= MaxRating
    ensures r == Ok ==>
      && db.reviews == old(db.reviews)[newId := Submitted(b, now)]
      && Storable(db.reviews[newId])
      && db.notices == old(db.notices) +
           [Notice(b.officiantId, ReviewCreatedMsg(b.eventName.value, b.userName.value, b.userId.value))]
    ensures r != Ok ==>
      && (r.MissingReviewFields? || r == ValidationFailed)
      && db.reviews == old(db.reviews) && db.notices == old(db.notices)
  {
    var missing := CollectMissing(b);
    if missing != [] {
      return MissingReviewFields(FieldNames(missing));
    }
    var review := Submitted(b, now);
    if !(MinRating <= review.rating <= MaxRating) {
      return ValidationFailed;
    }
    db.reviews := db.reviews[newId := review];
    db.notices := db.notices + [Notice(b.officiantId, ReviewCreatedMsg(b.eventName.value, b.userName.value, b.userId.value))];
    r := Ok;
  }

  /** The ids of every review of an officiant, and of every visible review. */
  function ReviewsOf(reviews: map<Id, Review>, officiantId: Id): (ids: set<Id>)
    ensures ids <= reviews.Keys
    ensures forall k :: k in reviews ==> (k in ids <==> reviews[k].officiantId == officiantId)
  {
    set k | k in reviews && reviews[k].officiantId == officiantId
  }

  function VisibleReviews(reviews: map<Id, Review>): (ids: set<Id>)
    ensures ids <= reviews.Keys
    ensures forall k :: k in reviews ==> (k in ids <==> reviews[k].isVisible)
  {
    set k | k in reviews && reviews[k].isVisible
  }

  /** getReviewsForOfficiant: every review of the officiant, hidden ones
      included; an empty id is refused. */
  function ReviewsForOfficiant(reviews: map<Id, Review>, officiantId: Id): (r: Option<set<Id>>)
    ensures r.None? <==> officiantId == ""
    ensures r.Some? ==> r.value == ReviewsOf(reviews, officiantId)
  {
    if officiantId == "" then None else Some(ReviewsOf(reviews, officiantId))
  }

  /** updateReviewVisibility: the flag is required; an unknown id is not
      found; otherwise only the flag and the update stamp change. */
  method UpdateReviewVisibility(db: Db, id: Id, isVisible: Option<bool>, now: Time) returns (r: Reply)
    modifies db`reviews
    ensures isVisible.None? ==> r == MissingVisibility
    ensures isVisible.Some? && id !in old(db.reviews) ==> r == NotFound
    ensures r == Ok <==> isVisible.Some? && id in old(db.reviews)
    ensures r == Ok ==> db.reviews == old(db.reviews)[id := old(db.reviews)[id].(isVisible := isVisible.value, updatedAt := now)]
    ensures r != Ok ==> db.reviews == old(db.reviews)
  {
    if isVisible.None? {
      return MissingVisibility;
    }
    if id !in db.reviews {
      return NotFound;
    }
    db.reviews := db.reviews[id := db.reviews[id].(isVisible := isVisible.value, updatedAt := now)];
    r := Ok;
  }

  /** Hiding a review takes it out of the public listing and out of its
      officiant's public listing, and touches no other review. */
  lemma HidingUnlists(reviews: map<Id, Review>, id: Id, now: Time)
    requires id in reviews
    ensures var after := reviews[id := reviews[id].(isVisible := false, updatedAt := now)];
      && id !in VisibleReviews(after)
      && VisibleReviews(after) == VisibleReviews(reviews) - {id}
      && id !in PublicReviewsForOfficiant(after, reviews[id].officiantId)
      && ReviewsOf(after, reviews[id].officiantId) == ReviewsOf(reviews, reviews[id].officiantId)
  {
    var after := reviews[id := reviews[id].(isVisible := false, updatedAt := now)];
    assert forall k :: k in after && k != id ==> after[k] == reviews[k];
  }

  /** A listing is either stored reviews, by id, or the sample list. */
  datatype Listing = Stored(ids: set<Id>) | Samples(items: seq<Review>)

  /** The four sample reviews; their creation times are the given dates in
      milliseconds since the epoch, and they carry no separate update time. */
  const DummyReviews: seq<Review> := [
    Review("dummy1", "https://images.unsplash.com/photo-1494790108755-2616b612b786?w=150", "Sarah Johnson", 5,
           "event1", Some("Absolutely amazing! Our officiant made our special day even more magical. They were professional, warm, and truly understood what we wanted for our ceremony. Couldn't have asked for better!"),
           "officiant1", "Sarah & Michael's Wedding", true, 1705276800000, 1705276800000),
    Review("dummy2", "https://images.unsplash.com/photo-1507003211169-0a1dd7228f2d?w=150", "David Chen", 5,
           "event2", Some("We were so nervous about finding the right officiant, but this was the best decision we made! They listened to our story and created a ceremony that was uniquely ours. Our guests are still talking about how beautiful it was."),
           "officiant1", "Emma & David's Garden Wedding", true, 1706918400000, 1706918400000),
    Review("dummy3", "https://images.unsplash.com/photo-1438761681033-6461ffad8d80?w=150", "Maria Rodriguez", 4,
           "event3", Some("Such a lovely experience! Our officiant was punctual, well-prepared, and brought such positive energy to our ceremony. They made us feel comfortable and helped everything flow smoothly. Highly recommend!"),
           "officiant2", "Maria & James' Beach Wedding", true, 1708387200000, 1708387200000),
    Review("dummy4", "https://images.unsplash.com/photo-1472099645785-5658abf4ff4e?w=150", "Robert Thompson", 5,
           "event4", Some("From our first meeting to the wedding day, everything was perfect! They took the time to get to know us as a couple and delivered a ceremony that truly reflected our love story. Professional, caring, and talented!"),
           "officiant2", "Lisa & Robert's Rustic Wedding", true, 1710028800000, 1710028800000)
  ]

  /** getPublicReviews: the visible reviews, or the samples when there are none. */
  function PublicReviews(reviews: map<Id, Review>): (l: Listing)
    ensures l.Stored? <==> VisibleReviews(reviews) != {}
    ensures l.Stored? ==> l.ids == VisibleReviews(reviews)
    ensures l.Samples? ==> l.items == DummyReviews
  {
    var visible := VisibleReviews(reviews);
    if visible != {} then Stored(visible) else Samples(DummyReviews)
  }

  /** The public listing is never empty, never shows a hidden review, and
      every sample would itself pass the schema's validators. */
  lemma PublicListingShowsOnlyVisible(reviews: map<Id, Review>)
    ensures PublicReviews(reviews).Stored? ==>
      PublicReviews(reviews).ids != {} && forall k :: k in PublicReviews(reviews).ids ==> k in reviews && reviews[k].isVisible
    ensures PublicReviews(reviews).Samples? ==>
      && |PublicReviews(reviews).items| == 4
      && forall i :: 0 <= i < 4 ==> PublicReviews(reviews).items[i].isVisible && Storable(PublicReviews(reviews).items[i])
  {
  }

  /** The samples belong to two officiants, two each, and only one of them
      is rated below five. */
  lemma SampleReviews()
    ensures [DummyReviews[0].officiantId, DummyReviews[1].officiantId, DummyReviews[2].officiantId,
             DummyReviews[3].officiantId] == ["officiant1", "officiant1", "officiant2", "officiant2"]
    ensures forall i :: 0 <= i < 4 ==> (DummyReviews[i].rating == 5 <==> i != 2)
    ensures DummyReviews[2].rating == 4
  {
  }

  /** getPublicReviewsForOfficiant: the officiant's visible reviews, with no
      sample fallback. */
  function PublicReviewsForOfficiant(reviews: map<Id, Review>, officiantId: Id): (ids: set<Id>)
    ensures forall k :: k in ids <==> k in reviews && reviews[k].officiantId == officiantId && reviews[k].isVisible
  {
    set k | k in reviews && reviews[k].officiantId == officiantId && reviews[k].isVisible
  }

  /** An officiant's public reviews are exactly the visible part of the
      officiant's full list, and part of the public listing. */
  lemma OfficiantPublicIsVisiblePart(reviews: map<Id, Review>, officiantId: Id)
    ensures PublicReviewsForOfficiant(reviews, officiantId) == ReviewsOf(reviews, officiantId) * VisibleReviews(reviews)
    ensures PublicReviewsForOfficiant(reviews, officiantId) != {} ==>
      PublicReviews(reviews).Stored? && PublicReviewsForOfficiant(reviews, officiantId) <= PublicReviews(reviews).ids
  {
  }
}
