/** CreateReviewHandler.Handle: check that the user and the title exist, validate the rating, add
    the review through the title, store the title and publish a ReviewCreatedEvent. A fresh review
    id and the current time are parameters. `HandleOutcome` states what one call does to the
    stores; the method `Handle` does it step by step and is proved to agree. */
module CreateReviewHandler {
  import opened Wrappers
  import opened Common
  import opened ValueObjects
  import opened Entities
  import opened Repositories
  import opened Events
  import Aggregates

  datatype ReviewDto = ReviewDto(titleId: Guid, userId: Guid, rating: int, content: Option<string>)

  datatype Handled = Handled(title: TitleData, event: ReviewCreatedEvent)

  /** The event published for a new review: its id, title, author, rating and creation time. */
  function EventFor(r: Review): (e: ReviewCreatedEvent)
    ensures e.reviewId == r.id && e.titleId == r.titleId && e.userId == r.userId
    ensures e.rating == r.rating && e.createdAt == r.createdAt
  {
    ReviewCreatedEvent(r.id, r.titleId, r.userId, r.rating, r.createdAt)
  }

  /** The handler as written: a missing user, then a missing title, then an out-of-range rating
      are refused; otherwise the review is appended to the title, whether or not the user has
      reviewed it already, and the event describes the new review. */
  function HandleOutcome(users: set<Guid>, titles: map<Guid, TitleData>, dto: ReviewDto,
                         newId: Guid, now: DateTime): (r: Result<Handled, Error>)
    ensures dto.userId !in users ==> r == Failure(UserNotFound)
    ensures dto.userId in users && dto.titleId !in titles ==> r == Failure(TitleNotFound)
    ensures dto.userId in users && dto.titleId in titles && !(1 <= dto.rating <= 10) ==>
              r == Failure(RatingOutOfRange)
    ensures r.Success? <==> && dto.userId in users && dto.titleId in titles && 1 <= dto.rating <= 10
                            && titles[dto.titleId].id == dto.titleId
    ensures r.Success? ==>
              var review := Review(newId, dto.titleId, dto.userId, dto.rating, dto.content, now);
              && r.value.title == titles[dto.titleId].(reviews := titles[dto.titleId].reviews + [review])
              && r.value.event == ReviewCreatedEvent(newId, dto.titleId, dto.userId, dto.rating, now)
  {
    if dto.userId !in users then Failure(UserNotFound)
    else if dto.titleId !in titles then Failure(TitleNotFound)
    else match NewMovieRating(dto.rating)
      case Failure(e) => Failure(e)
      case Success(rating) =>
        var review := NewReview(newId, dto.titleId, dto.userId, rating.value, dto.content, now).value;
        var t := titles[dto.titleId];
        if review.titleId != t.id then Failure(TitleIdMismatch)
        else Success(Handled(t.(reviews := t.reviews + [review]), EventFor(review)))
  }

  /** On a store whose titles sit under their own ids, a successful call keeps the title well
      formed and every rating in range. */
  lemma HandleKeepsTitleWellFormed(users: set<Guid>, titles: map<Guid, TitleData>, dto: ReviewDto,
                                   newId: Guid, now: DateTime)
    requires forall k :: k in titles ==> titles[k].id == k && WellFormed(titles[k])
    requires HandleOutcome(users, titles, dto, newId, now).Success?
    ensures var h := HandleOutcome(users, titles, dto, newId, now).value;
            && h.title.id == dto.titleId && WellFormed(h.title)
            && h.title.reviews[|h.title.reviews| - 1].userId == dto.userId
            && (AllRatingsValid(titles[dto.titleId].reviews) ==> AllRatingsValid(h.title.reviews))
  {
    var h := HandleOutcome(users, titles, dto, newId, now).value;
    var t := titles[dto.titleId];
    assert h.title.reviews == t.reviews + [Review(newId, dto.titleId, dto.userId, dto.rating, dto.content, now)];
  }

  /** As written, a second review by the same user is accepted: the title then holds two reviews
      by one user. */
  lemma HandleAdmitsSecondReview()
    ensures var t := TitleData(1, 99, Movie, "Film", None, None, MinValue, [], [Review(5, 1, 7, 8, None, 0)]);
            var r := HandleOutcome({7}, map[1 := t], ReviewDto(1, 7, 3, None), 6, 0);
            && r.Success?
            && !OneReviewPerUser(r.value.title.reviews)
  {
    var t := TitleData(1, 99, Movie, "Film", None, None, MinValue, [], [Review(5, 1, 7, 8, None, 0)]);
    var r := HandleOutcome({7}, map[1 := t], ReviewDto(1, 7, 3, None), 6, 0);
    assert r.value.title.reviews[0].userId == r.value.title.reviews[1].userId;
  }

  /** The handler with the duplicate check the aggregates apply: the write goes through the
      validated review write, which refuses a second review by the same user. */
  function HandleChecked(users: set<Guid>, titles: map<Guid, TitleData>, dto: ReviewDto,
                         newId: Guid, now: DateTime): (r: Result<Handled, Error>)
    ensures dto.userId !in users ==> r == Failure(UserNotFound)
    ensures dto.userId in users && dto.titleId !in titles ==> r == Failure(TitleNotFound)
    ensures dto.userId in users && dto.titleId in titles &&
            (exists i :: 0 <= i < |titles[dto.titleId].reviews| && titles[dto.titleId].reviews[i].userId == dto.userId) ==>
              r == Failure(DuplicateReview)
    ensures r.Success? ==> && dto.titleId in titles
                           && var before := titles[dto.titleId].reviews;
                           && var after := r.value.title.reviews;
                           && |after| == |before| + 1 && after[..|before|] == before
                           && after[|before|] == Review(newId, titles[dto.titleId].id, dto.userId, dto.rating, dto.content, now)
                           && r.value.event == EventFor(after[|before|])
  {
    if dto.userId !in users then Failure(UserNotFound)
    else if dto.titleId !in titles then Failure(TitleNotFound)
    else match Aggregates.WriteReview(titles[dto.titleId], newId, dto.userId, dto.rating, dto.content, now)
      case Failure(e) => Failure(e)
      case Success(w) => Success(Handled(w.title, EventFor(w.review)))
  }

  /** The checked handler keeps at most one review per user on the title it writes. */
  lemma HandleCheckedKeepsOneReviewPerUser(users: set<Guid>, titles: map<Guid, TitleData>, dto: ReviewDto,
                                           newId: Guid, now: DateTime)
    requires dto.titleId in titles && OneReviewPerUser(titles[dto.titleId].reviews)
    ensures var r := HandleChecked(users, titles, dto, newId, now);
            r.Success? ==> OneReviewPerUser(r.value.title.reviews)
  {
    Aggregates.WriteReviewKeepsInvariants(titles[dto.titleId], newId, dto.userId, dto.rating, dto.content, now);
  }

  /** Where the user has not reviewed the title yet, and titles sit under their own ids, the
      checked handler does exactly what the handler as written does. */
  lemma HandleCheckedAgreesOnFirstReview(users: set<Guid>, titles: map<Guid, TitleData>, dto: ReviewDto,
                                         newId: Guid, now: DateTime)
    requires forall k :: k in titles ==> titles[k].id == k
    requires dto.titleId in titles ==>
               forall i :: 0 <= i < |titles[dto.titleId].reviews| ==> titles[dto.titleId].reviews[i].userId != dto.userId
    ensures HandleChecked(users, titles, dto, newId, now) == HandleOutcome(users, titles, dto, newId, now)
  {
  }

  /** The handler as written. */
  method Handle(dto: ReviewDto, users: UserStore, titles: TitleStore, dispatcher: EventLog,
                newId: Guid, now: DateTime) returns (r: Result<Guid, Error>)
    requires titles.Valid()
    modifies titles, dispatcher
    ensures titles.Valid()
    ensures match HandleOutcome(users.users.Keys, old(titles.titles), dto, newId, now)
            case Failure(e) =>
              && r == Failure(e) && titles.titles == old(titles.titles)
              && dispatcher.published == old(dispatcher.published)
            case Success(h) =>
              && r == Success(newId) && titles.titles == old(titles.titles)[dto.titleId := h.title]
              && dispatcher.published == old(dispatcher.published) + [h.event]
  {
    var user := users.GetById(dto.userId);
    if user == null {
      return Failure(UserNotFound);
    }
    var title := titles.GetById(dto.titleId);
    if title == null {
      return Failure(TitleNotFound);
    }
    var rating := NewMovieRating(dto.rating);
    if rating.Failure? {
      return Failure(rating.error);
    }
    var review := NewReview(newId, dto.titleId, dto.userId, rating.value.value, dto.content, now).value;
    var added := title.AddReview(review);
    assert added.Pass?;  // the review carries the id the title was fetched by
    titles.Upsert(title);
    dispatcher.Publish(EventFor(review));
    return Success(review.id);
  }
}
