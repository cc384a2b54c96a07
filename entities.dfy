/** The domain entities: Genre, Review, Title, User, Profile and its preference records.
    Review, Genre and the preferences never change once built and are datatypes; Title, User
    and Profile have mutators that update fields in place and are classes. */
module Entities {
  import opened Wrappers
  import opened Common

  datatype TitleType = Movie | Series

  // ---------------------------------------------------------------- Genre

  /** A genre; `id` is assigned by the genre store when the genre is first saved (0 before). */
  datatype Genre = Genre(id: int, name: string)

  /** `new Genre(name)`: a blank name is rejected. */
  function NewGenre(name: string): (r: Result<Genre, Error>)
    ensures r.Success? <==> !IsBlank(name)
    ensures r.Success? ==> r.value == Genre(0, name)
    ensures r.Failure? ==> r.error == BlankArgument("name")
  {
    if IsBlank(name) then Failure(BlankArgument("name")) else Success(Genre(0, name))
  }

  // ---------------------------------------------------------------- Review

  /** A review; all fields are set once by the constructor and have no mutator. */
  datatype Review = Review(id: Guid, titleId: Guid, userId: Guid, rating: int,
                           text: Option<string>, createdAt: DateTime)

  predicate ValidReview(r: Review) {
    1 <= r.rating <= 10
  }

  /** `new Review(id, titleId, userId, rating, text)` at time `createdAt`. */
  function NewReview(id: Guid, titleId: Guid, userId: Guid, rating: int, text: Option<string>,
                     createdAt: DateTime): (r: Result<Review, Error>)
    ensures r.Failure? <==> rating < 1 || rating > 10
    ensures r.Failure? ==> r.error == RatingOutOfRange
    ensures r.Success? ==> ValidReview(r.value)
    ensures r.Success? ==> && r.value.id == id && r.value.titleId == titleId
                           && r.value.userId == userId && r.value.rating == rating
                           && r.value.text == text && r.value.createdAt == createdAt
  {
    if rating < 1 || rating > 10 then Failure(RatingOutOfRange)
    else Success(Review(id, titleId, userId, rating, text, createdAt))
  }

  /** `reviews.Exists(r => r.UserId == userId)`, scanning from the front. */
  function HasReviewBy(reviews: seq<Review>, userId: Guid): (b: bool)
    ensures b <==> exists i :: 0 <= i < |reviews| && reviews[i].userId == userId
    decreases |reviews|
  {
    if reviews == [] then false
    else
      assert forall i :: 0 < i < |reviews| ==> reviews[i] == reviews[1..][i - 1];
      reviews[0].userId == userId || HasReviewBy(reviews[1..], userId)
  }

  /** The central invariant: no user has two reviews in the list. */
  ghost predicate OneReviewPerUser(reviews: seq<Review>) {
    forall i, j :: 0 <= i < j < |reviews| ==> reviews[i].userId != reviews[j].userId
  }

  predicate AllRatingsValid(reviews: seq<Review>) {
    forall i :: 0 <= i < |reviews| ==> ValidReview(reviews[i])
  }

  // ---------------------------------------------------------------- averages

  type Pos = n: int | n > 0 witness 1

  /** An exact average `num / den`; the source's `double` average is modelled without rounding. */
  datatype Ratio = Ratio(num: int, den: Pos)

  /** The sum of the ratings; between the count and ten times the count when every rating is valid. */
  function SumRatings(reviews: seq<Review>): (s: int)
    ensures AllRatingsValid(reviews) ==> |reviews| <= s <= 10 * |reviews|
    decreases |reviews|
  {
    if reviews == [] then 0
    else
      var init := reviews[..|reviews| - 1];
      assert forall i :: 0 <= i < |init| ==> init[i] == reviews[i];
      assert AllRatingsValid(reviews) ==> ValidReview(reviews[|reviews| - 1]);
      SumRatings(init) + reviews[|reviews| - 1].rating
  }

  /** The mean rating of a list, or 0 when it is empty (`Any() ? Average(r => r.Rating) : 0.0`). */
  function MeanRating(reviews: seq<Review>): (m: Ratio)
    ensures |reviews| == 0 ==> m.num == 0
    ensures |reviews| > 0 ==> m.num * |reviews| == SumRatings(reviews) * m.den
  {
    if |reviews| == 0 then Ratio(0, 1) else Ratio(SumRatings(reviews), |reviews|)
  }

  /** With at least one review the mean lies in [1, 10], since every rating does. */
  lemma MeanWithinRatingRange(reviews: seq<Review>)
    requires AllRatingsValid(reviews) && |reviews| > 0
    ensures MeanRating(reviews).den <= MeanRating(reviews).num <= 10 * MeanRating(reviews).den
  {
  }

  // ---------------------------------------------------------------- Title

  /** The state of a Title, as a value: what the title store keeps and what ranking reads. */
  datatype TitleData = TitleData(id: Guid, tmdbId: int, kind: TitleType, name: string,
                                 synopsis: Option<string>, posterUrl: Option<string>,
                                 releaseDate: DateTime, genres: seq<Genre>, reviews: seq<Review>)

  /** The Title invariants: a non-blank name, and every owned review points back to the title. */
  ghost predicate WellFormed(d: TitleData) {
    && !IsBlank(d.name)
    && forall i :: 0 <= i < |d.reviews| ==> d.reviews[i].titleId == d.id
  }

  /** The state right after `new Title(id, tmdbId, type, name)`. */
  function InitialTitle(id: Guid, tmdbId: int, kind: TitleType, name: string): (d: TitleData)
    ensures d.releaseDate == MinValue && d.genres == [] && d.reviews == []
    ensures d.synopsis.None? && d.posterUrl.None?
    ensures !IsBlank(name) ==> WellFormed(d)
  {
    TitleData(id, tmdbId, kind, name, None, None, MinValue, [], [])
  }

  class Title {
    const id: Guid
    const tmdbId: int
    var kind: TitleType
    var name: string
    var synopsis: Option<string>
    var posterUrl: Option<string>
    var releaseDate: DateTime
    var genres: seq<Genre>
    var reviews: seq<Review>

    function Data(): TitleData
      reads this
    {
      TitleData(id, tmdbId, kind, name, synopsis, posterUrl, releaseDate, genres, reviews)
    }

    ghost predicate Valid()
      reads this
    {
      WellFormed(Data())
    }

    /** Materialises a stored title (the persistence layer's parameterless constructor). */
    constructor Load(d: TitleData)
      ensures Data() == d
    {
      id, tmdbId, kind, name := d.id, d.tmdbId, d.kind, d.name;
      synopsis, posterUrl, releaseDate := d.synopsis, d.posterUrl, d.releaseDate;
      genres, reviews := d.genres, d.reviews;
    }

    /** `new Title(id, tmdbId, type, title)`: a blank name is rejected. */
    static method Create(id: Guid, tmdbId: int, kind: TitleType, name: string)
      returns (r: Result<Title, Error>)
      ensures r.Failure? <==> IsBlank(name)
      ensures r.Failure? ==> r.error == BlankArgument("title")
      ensures r.Success? ==> fresh(r.value) && r.value.Data() == InitialTitle(id, tmdbId, kind, name)
      ensures r.Success? ==> r.value.Valid()
    {
      if IsBlank(name) {
        return Failure(BlankArgument("title"));
      }
      var t := new Title.Load(InitialTitle(id, tmdbId, kind, name));
      return Success(t);
    }

    /** A missing date leaves the release date as it was. */
    method SetReleaseDate(date: Option<DateTime>)
      modifies this
      ensures Data() == if date.Some? then old(Data()).(releaseDate := date.value) else old(Data())
      ensures old(Valid()) ==> Valid()
    {
      if date.Some? {
        releaseDate := date.value;
      }
    }

    /** Attaches a review whose TitleId is this title's id; any other review is refused. */
    method AddReview(review: Review) returns (o: Outcome<Error>)
      modifies this
      ensures o.Fail? <==> review.titleId != id
      ensures o.Fail? ==> o.error == TitleIdMismatch && Data() == old(Data())
      ensures o.Pass? ==> Data() == old(Data()).(reviews := old(reviews) + [review])
      ensures old(Valid()) ==> Valid()
      ensures old(AllRatingsValid(reviews)) && ValidReview(review) ==> AllRatingsValid(reviews)
    {
      if review.titleId != id {
        return Fail(TitleIdMismatch);
      }
      reviews := reviews + [review];
      o := Pass;
    }

    method SetSynopsis(s: string)
      modifies this
      ensures Data() == old(Data()).(synopsis := Some(s))
      ensures old(Valid()) ==> Valid()
    {
      synopsis := Some(s);
    }

    method SetPoster(url: string)
      modifies this
      ensures Data() == old(Data()).(posterUrl := Some(url))
      ensures old(Valid()) ==> Valid()
    {
      posterUrl := Some(url);
    }

    /** A blank name is refused without change. */
    method Rename(newName: string) returns (o: Outcome<Error>)
      modifies this
      ensures o.Fail? <==> IsBlank(newName)
      ensures o.Fail? ==> o.error == BlankArgument("newName") && Data() == old(Data())
      ensures o.Pass? ==> Data() == old(Data()).(name := newName)
      ensures old(Valid()) ==> Valid()
    {
      if IsBlank(newName) {
        return Fail(BlankArgument("newName"));
      }
      name := newName;
      o := Pass;
    }

    /** Appends the genre; no de-duplication here. */
    method AddGenre(g: Genre)
      modifies this
      ensures Data() == old(Data()).(genres := old(genres) + [g])
      ensures old(Valid()) ==> Valid()
    {
      genres := genres + [g];
    }

    method SetType(t: TitleType)
      modifies this
      ensures Data() == old(Data()).(kind := t)
      ensures old(Valid()) ==> Valid()
    {
      kind := t;
    }
  }

  // ---------------------------------------------------------------- Profile

  datatype GenrePreference = GenrePreference(genreId: int, name: string)

  datatype PersonPreference = PersonPreference(personId: int, name: string)

  class Profile {
    const id: Guid
    const userId: Guid
    const createdAt: DateTime
    var genrePreferences: seq<GenrePreference>
    var personPreferences: seq<PersonPreference>

    constructor (id: Guid, userId: Guid, createdAt: DateTime)
      ensures this.id == id && this.userId == userId && this.createdAt == createdAt
      ensures genrePreferences == [] && personPreferences == []
    {
      this.id, this.userId, this.createdAt := id, userId, createdAt;
      genrePreferences, personPreferences := [], [];
    }

    /** Appends one genre preference; a null one is refused. */
    method AddGenrePreference(pref: Option<GenrePreference>) returns (o: Outcome<Error>)
      modifies this
      ensures pref.None? ==> o == Fail(NullArgument("pref")) && genrePreferences == old(genrePreferences)
      ensures pref.Some? ==> o == Pass && genrePreferences == old(genrePreferences) + [pref.value]
      ensures personPreferences == old(personPreferences)
    {
      if pref.None? {
        return Fail(NullArgument("pref"));
      }
      genrePreferences := genrePreferences + [pref.value];
      o := Pass;
    }

    /** Appends one person preference; a null one is refused. */
    method AddPersonPreference(pref: Option<PersonPreference>) returns (o: Outcome<Error>)
      modifies this
      ensures pref.None? ==> o == Fail(NullArgument("pref")) && personPreferences == old(personPreferences)
      ensures pref.Some? ==> o == Pass && personPreferences == old(personPreferences) + [pref.value]
      ensures genrePreferences == old(genrePreferences)
    {
      if pref.None? {
        return Fail(NullArgument("pref"));
      }
      personPreferences := personPreferences + [pref.value];
      o := Pass;
    }
  }

  // ---------------------------------------------------------------- User

  class User {
    const id: Guid
    const email: string
    const passwordHash: string
    const displayName: Option<string>
    const createdAt: DateTime
    var profile: Profile?

    /** Materialises a stored user (the persistence layer's parameterless constructor). */
    constructor Load(id: Guid, email: string, passwordHash: string, displayName: Option<string>,
                     createdAt: DateTime)
      ensures this.id == id && this.email == email && this.passwordHash == passwordHash
      ensures this.displayName == displayName && this.createdAt == createdAt && profile == null
    {
      this.id, this.email, this.passwordHash := id, email, passwordHash;
      this.displayName, this.createdAt := displayName, createdAt;
      profile := null;
    }

    /** `new User(id, email, passwordHash, displayName)`: a blank email, then a blank hash, is rejected. */
    static method Create(id: Guid, email: string, passwordHash: string, displayName: Option<string>,
                         createdAt: DateTime) returns (r: Result<User, Error>)
      ensures IsBlank(email) ==> r == Failure(BlankArgument("email"))
      ensures !IsBlank(email) && IsBlank(passwordHash) ==> r == Failure(BlankArgument("passwordHash"))
      ensures r.Success? <==> !IsBlank(email) && !IsBlank(passwordHash)
      ensures r.Success? ==> && fresh(r.value) && r.value.id == id && r.value.email == email
                             && r.value.passwordHash == passwordHash
                             && r.value.displayName == displayName && r.value.createdAt == createdAt
                             && r.value.profile == null
    {
      if IsBlank(email) {
        return Failure(BlankArgument("email"));
      }
      if IsBlank(passwordHash) {
        return Failure(BlankArgument("passwordHash"));
      }
      var u := new User.Load(id, email, passwordHash, displayName, createdAt);
      return Success(u);
    }

    /** Sets the profile; null is refused and the profile stays as it was. */
    method SetProfile(p: Profile?) returns (o: Outcome<Error>)
      modifies this
      ensures p == null ==> o == Fail(NullArgument("profile")) && profile == old(profile)
      ensures p != null ==> o == Pass && profile == p
    {
      if p == null {
        return Fail(NullArgument("profile"));
      }
      profile := p;
      o := Pass;
    }
  }
}
