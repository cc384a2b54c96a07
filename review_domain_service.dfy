/** ReviewDomainService: the average of a title's ratings and the one-review-per-user policy,
    as read-only queries over a title. */
module ReviewDomainService {
  import opened Wrappers
  import opened Common
  import opened Entities
  import Aggregates

  /** 0 for a title without reviews, otherwise the exact mean, which then lies in [1, 10]. */
  function CalculateAverage(title: Title): (a: Ratio)
    reads title
    ensures |title.reviews| == 0 ==> a.num == 0
    ensures |title.reviews| > 0 ==> a.num * |title.reviews| == SumRatings(title.reviews) * a.den
    ensures |title.reviews| > 0 && AllRatingsValid(title.reviews) ==> a.den <= a.num <= 10 * a.den
  {
    if |title.reviews| > 0 && AllRatingsValid(title.reviews) then
      MeanWithinRatingRange(title.reviews);
      MeanRating(title.reviews)
    else MeanRating(title.reviews)
  }

  /** Fails exactly when the title already holds a review by the user; the title is only read. */
  function EnforceUserCanReview(title: Title, user: User): (o: Outcome<Error>)
    reads title
    ensures o.Fail? <==> exists i :: 0 <= i < |title.reviews| && title.reviews[i].userId == user.id
    ensures o.Fail? ==> o.error == DuplicateReview
  {
    if HasReviewBy(title.reviews, user.id) then Fail(DuplicateReview) else Pass
  }

  /** The policy check fails exactly when the validated write is refused as a duplicate. */
  lemma PolicyAgreesWithWrite(title: Title, user: User, reviewId: Guid, rating: int,
                              text: Option<string>, now: DateTime)
    ensures EnforceUserCanReview(title, user).Fail? <==>
            Aggregates.WriteReview(title.Data(), reviewId, user.id, rating, text, now) == Failure(DuplicateReview)
  {
  }
}
