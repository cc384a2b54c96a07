/** The aggregate coordinators. TitleAggregate.AddReview, UserAggregate.AddReviewToTitle and
    ReviewAggregate.AddReview each repeat one check-then-append rule; `WriteReview` states that
    rule once, each method is proved to follow it, and the invariant is proved about it. */
module Aggregates {
  import opened Wrappers
  import opened Common
  import opened ValueObjects
  import opened Entities

  datatype Written = Written(title: TitleData, review: Review)

  /** The validated review write: refuse a second review by the user, then an out-of-range
      rating; otherwise append a review owned by the title and return it. */
  function WriteReview(t: TitleData, reviewId: Guid, userId: Guid, rating: int,
                       text: Option<string>, now: DateTime): (r: Result<Written, Error>)
    ensures r.Failure? ==> r.error == DuplicateReview || r.error == RatingOutOfRange
    ensures r.Failure? && r.error == DuplicateReview <==>
              exists i :: 0 <= i < |t.reviews| && t.reviews[i].userId == userId
    ensures r.Success? <==> 1 <= rating <= 10 && forall i :: 0 <= i < |t.reviews| ==> t.reviews[i].userId != userId
    ensures r.Success? ==> && r.value.review == Review(reviewId, t.id, userId, rating, text, now)
                           && r.value.title == t.(reviews := t.reviews + [r.value.review])
  {
    if HasReviewBy(t.reviews, userId) then Failure(DuplicateReview)
    else if rating < 1 || rating > 10 then Failure(RatingOutOfRange)
    else
      var review := Review(reviewId, t.id, userId, rating, text, now);
      Success(Written(t.(reviews := t.reviews + [review]), review))
  }

  /** Starting from at most one review per user, a successful write keeps it so, keeps the
      title well formed and keeps every rating in range. */
  lemma WriteReviewKeepsInvariants(t: TitleData, reviewId: Guid, userId: Guid, rating: int,
                                   text: Option<string>, now: DateTime)
    requires OneReviewPerUser(t.reviews)
    ensures var r := WriteReview(t, reviewId, userId, rating, text, now);
            r.Success? ==> OneReviewPerUser(r.value.title.reviews)
    ensures var r := WriteReview(t, reviewId, userId, rating, text, now);
            r.Success? && WellFormed(t) ==> WellFormed(r.value.title)
    ensures var r := WriteReview(t, reviewId, userId, rating, text, now);
            r.Success? && AllRatingsValid(t.reviews) ==> AllRatingsValid(r.value.title.reviews)
  {
    var r := WriteReview(t, reviewId, userId, rating, text, now);
    if r.Success? {
      var rs := r.value.title.reviews;
      forall i, j | 0 <= i < j < |rs| ensures rs[i].userId != rs[j].userId {
        if j == |rs| - 1 {
          assert rs[i] == t.reviews[i];
        } else {
          assert rs[i] == t.reviews[i] && rs[j] == t.reviews[j];
        }
      }
    }
  }

  /** Once a user has reviewed a title, every further write by that user is refused as a
      duplicate and leaves the title (its reviews included) exactly as it was. */
  lemma SecondReviewIsRefused(t: TitleData, userId: Guid, id1: Guid, rating1: int, text1: Option<string>,
                              now1: DateTime, id2: Guid, rating2: int, text2: Option<string>, now2: DateTime)
    requires WriteReview(t, id1, userId, rating1, text1, now1).Success?
    ensures var t1 := WriteReview(t, id1, userId, rating1, text1, now1).value.title;
            WriteReview(t1, id2, userId, rating2, text2, now2) == Failure(DuplicateReview)
  {
    var t1 := WriteReview(t, id1, userId, rating1, text1, now1).value.title;
    assert t1.reviews[|t1.reviews| - 1].userId == userId;
  }

  // ---------------------------------------------------------------- TitleAggregate

  class TitleAggregate {
    const title: Title

    constructor (title: Title)
      ensures this.title == title
    {
      this.title := title;
    }

    /** Duplicate check, then `new MovieRating(rating)`, then the review is attached. */
    method AddReview(reviewId: Guid, user: User, rating: int, text: Option<string>, now: DateTime)
      returns (r: Result<Review, Error>)
      modifies title
      ensures match WriteReview(old(title.Data()), reviewId, user.id, rating, text, now)
              case Failure(e) => r == Failure(e) && title.Data() == old(title.Data())
              case Success(w) => r == Success(w.review) && title.Data() == w.title
    {
      if HasReviewBy(title.reviews, user.id) {
        return Failure(DuplicateReview);
      }
      var movieRating := NewMovieRating(rating);
      if movieRating.Failure? {
        return Failure(movieRating.error);
      }
      var review := NewReview(reviewId, title.id, user.id, movieRating.value.value, text, now).value;
      var _ := title.AddReview(review);
      return Success(review);
    }

    /** 0 without reviews, otherwise the exact mean, which then lies in [1, 10]. */
    function CalculateAverageRating(): (a: Ratio)
      reads title
      ensures |title.reviews| == 0 ==> a.num == 0
      ensures |title.reviews| > 0 ==> a.num * |title.reviews| == SumRatings(title.reviews) * a.den
      ensures |title.reviews| > 0 && AllRatingsValid(title.reviews) ==> a.den <= a.num <= 10 * a.den
    {
      if |title.reviews| > 0 && AllRatingsValid(title.reviews) then
        MeanWithinRatingRange(title.reviews);
        MeanRating(title.reviews)
      else MeanRating(title.reviews)
    }

    /** A read-only view of the reviews, in stored order. */
    function GetAllReviews(): (rs: seq<Review>)
      reads title
      ensures |rs| == |title.reviews| && forall i :: 0 <= i < |rs| ==> rs[i] == title.reviews[i]
    {
      title.reviews
    }
  }

  // ---------------------------------------------------------------- UserAggregate

  /** `titles.SelectMany(t => t.Reviews)`: all reviews, title by title, in stored order. */
  function AllReviews(titles: seq<Title>): (rs: seq<Review>)
    reads titles
    ensures forall r :: r in rs <==> exists k :: 0 <= k < |titles| && r in titles[k].reviews
    decreases |titles|
  {
    if titles == [] then []
    else
      assert forall k :: 0 < k < |titles| ==> titles[k] == titles[1..][k - 1];
      titles[0].reviews + AllReviews(titles[1..])
  }

  /** `.Where(r => r.UserId == userId)`, keeping order. */
  function ReviewsBy(reviews: seq<Review>, userId: Guid): (rs: seq<Review>)
    ensures forall r :: r in rs <==> r in reviews && r.userId == userId
    decreases |reviews|
  {
    if reviews == [] then []
    else
      assert reviews == [reviews[0]] + reviews[1..];
      (if reviews[0].userId == userId then [reviews[0]] else []) + ReviewsBy(reviews[1..], userId)
  }

  /** rs lists reviews by the user found at the positions idx of `reviews`. */
  ghost predicate PicksAt(rs: seq<Review>, reviews: seq<Review>, userId: Guid, idx: seq<nat>) {
    && |idx| == |rs|
    && forall i :: 0 <= i < |idx| ==> idx[i] < |reviews| && rs[i] == reviews[idx[i]] && rs[i].userId == userId
  }

  ghost predicate Increasing(idx: seq<nat>) {
    forall i, j :: 0 <= i < j < |idx| ==> idx[i] < idx[j]
  }

  /** Every position holding a review by the user is in idx. */
  ghost predicate Covers(reviews: seq<Review>, userId: Guid, idx: seq<nat>) {
    forall j :: 0 <= j < |reviews| && reviews[j].userId == userId ==> j in idx
  }

  /** rs lists the reviews by the user at the positions idx of `reviews`: in increasing order,
      and every position holding a review by the user among them. */
  ghost predicate FilteredAt(rs: seq<Review>, reviews: seq<Review>, userId: Guid, idx: seq<nat>) {
    PicksAt(rs, reviews, userId, idx) && Increasing(idx) && Covers(reviews, userId, idx)
  }

  function Shift(idx: seq<nat>): (r: seq<nat>)
    ensures |r| == |idx| && forall i :: 0 <= i < |idx| ==> r[i] == idx[i] + 1
  {
    seq(|idx|, i requires 0 <= i < |idx| => idx[i] + 1)
  }

  /** Putting a review in front moves every picked position up by one; a review by the user
      can itself be picked at position 0. */
  lemma PicksShift(x: Review, tail: seq<Review>, rs: seq<Review>, userId: Guid, idx: seq<nat>)
    requires PicksAt(rs, tail, userId, idx)
    ensures PicksAt(rs, [x] + tail, userId, Shift(idx))
    ensures x.userId == userId ==> PicksAt([x] + rs, [x] + tail, userId, [0] + Shift(idx))
  {
    var reviews := [x] + tail;
    var shifted := Shift(idx);
    forall i | 0 <= i < |idx| ensures shifted[i] < |reviews| && rs[i] == reviews[shifted[i]] {
      assert reviews[idx[i] + 1] == tail[idx[i]];
    }
    if x.userId == userId {
      var all := [0] + shifted;
      var out := [x] + rs;
      forall i | 0 < i < |all| ensures all[i] < |reviews| && out[i] == reviews[all[i]] && out[i].userId == userId {
        assert all[i] == shifted[i - 1] && out[i] == rs[i - 1];
      }
    }
  }

  lemma IncreasingShift(idx: seq<nat>)
    requires Increasing(idx)
    ensures Increasing(Shift(idx)) && Increasing([0] + Shift(idx))
  {
    var all := [0] + Shift(idx);
    forall i, j | 0 <= i < j < |all| ensures all[i] < all[j] {
      assert all[j] == Shift(idx)[j - 1];
      if i > 0 {
        assert all[i] == Shift(idx)[i - 1];
      }
    }
  }

  lemma CoversShift(x: Review, tail: seq<Review>, userId: Guid, idx: seq<nat>)
    requires Covers(tail, userId, idx)
    ensures x.userId != userId ==> Covers([x] + tail, userId, Shift(idx))
    ensures Covers([x] + tail, userId, [0] + Shift(idx))
  {
    var reviews := [x] + tail;
    var shifted := Shift(idx);
    forall j | 0 < j < |reviews| && reviews[j].userId == userId ensures j in shifted {
      assert tail[j - 1] == reviews[j];
      var k :| 0 <= k < |idx| && idx[k] == j - 1;
      assert shifted[k] == j;
    }
    assert ([0] + shifted)[0] == 0;
  }

  /** The filter keeps the user's reviews in their order, each as often as it occurs. */
  lemma {:induction false} ReviewsByKeepsOrder(reviews: seq<Review>, userId: Guid) returns (idx: seq<nat>)
    ensures FilteredAt(ReviewsBy(reviews, userId), reviews, userId, idx)
    decreases |reviews|
  {
    if reviews == [] {
      idx := [];
    } else {
      var tail := reviews[1..];
      assert reviews == [reviews[0]] + tail;
      var rest := ReviewsByKeepsOrder(tail, userId);
      if reviews[0].userId == userId {
        assert ReviewsBy(reviews, userId) == [reviews[0]] + ReviewsBy(tail, userId);
        PicksShift(reviews[0], tail, ReviewsBy(tail, userId), userId, rest);
        IncreasingShift(rest);
        CoversShift(reviews[0], tail, userId, rest);
        idx := [0] + Shift(rest);
      } else {
        assert ReviewsBy(reviews, userId) == ReviewsBy(tail, userId);
        PicksShift(reviews[0], tail, ReviewsBy(tail, userId), userId, rest);
        IncreasingShift(rest);
        CoversShift(reviews[0], tail, userId, rest);
        idx := Shift(rest);
      }
    }
  }







  class UserAggregate {
    const user: User

    constructor (user: User)
      ensures this.user == user
    {
      this.user := user;
    }

    /** Sets the user's profile; null is refused. */
    method AddOrUpdateProfile(profile: Profile?) returns (o: Outcome<Error>)
      modifies user
      ensures profile == null ==> o == Fail(NullArgument("profile")) && user.profile == old(user.profile)
      ensures profile != null ==> o == Pass && user.profile == profile
    {
      if profile == null {
        return Fail(NullArgument("profile"));
      }
      o := user.SetProfile(profile);
    }

    /** Duplicate check on the given title, then `new MovieRating(rating)`, then the review is attached. */
    method AddReviewToTitle(title: Title, reviewId: Guid, rating: int, text: Option<string>, now: DateTime)
      returns (r: Result<Review, Error>)
      modifies title
      ensures match WriteReview(old(title.Data()), reviewId, user.id, rating, text, now)
              case Failure(e) => r == Failure(e) && title.Data() == old(title.Data())
              case Success(w) => r == Success(w.review) && title.Data() == w.title
    {
      if HasReviewBy(title.reviews, user.id) {
        return Failure(DuplicateReview);
      }
      var movieRating := NewMovieRating(rating);
      if movieRating.Failure? {
        return Failure(movieRating.error);
      }
      var review := NewReview(reviewId, title.id, user.id, movieRating.value.value, text, now).value;
      var _ := title.AddReview(review);
      return Success(review);
    }

    /** Exactly the reviews written by this user, over all the given titles. */
    function GetReviewHistory(titles: seq<Title>): (rs: seq<Review>)
      reads titles
      ensures forall r :: r in rs <==> r.userId == user.id && exists k :: 0 <= k < |titles| && r in titles[k].reviews
    {
      ReviewsBy(AllReviews(titles), user.id)
    }

    /** The history lists this user's reviews in the order of the flattened titles (title by
        title, each title's reviews in stored order), each as often as it occurs there. */
    lemma HistoryKeepsOrder(titles: seq<Title>) returns (idx: seq<nat>)
      ensures FilteredAt(GetReviewHistory(titles), AllReviews(titles), user.id, idx)
    {
      idx := ReviewsByKeepsOrder(AllReviews(titles), user.id);
    }
  }

  // ---------------------------------------------------------------- ReviewAggregate

  class ReviewAggregate {
    const user: User
    const title: Title

    constructor (user: User, title: Title)
      ensures this.user == user && this.title == title
    {
      this.user, this.title := user, title;
    }

    /** Fails exactly when the title already holds a review by the user; reads only. */
    function EnsureNoDuplicateReview(): (o: Outcome<Error>)
      reads title
      ensures o.Fail? <==> exists i :: 0 <= i < |title.reviews| && title.reviews[i].userId == user.id
      ensures o.Fail? ==> o.error == DuplicateReview
    {
      if HasReviewBy(title.reviews, user.id) then Fail(DuplicateReview) else Pass
    }

    /** Duplicate check, then the Review constructor validates the rating, then the review is attached. */
    method AddReview(id: Guid, rating: int, text: Option<string>, now: DateTime)
      returns (r: Result<Review, Error>)
      modifies title
      ensures match WriteReview(old(title.Data()), id, user.id, rating, text, now)
              case Failure(e) => r == Failure(e) && title.Data() == old(title.Data())
              case Success(w) => r == Success(w.review) && title.Data() == w.title
    {
      var check := EnsureNoDuplicateReview();
      if check.Fail? {
        return Failure(check.error);
      }
      var review := NewReview(id, title.id, user.id, rating, text, now);
      if review.Failure? {
        return Failure(review.error);
      }
      var _ := title.AddReview(review.value);
      return Success(review.value);
    }
  }
}
