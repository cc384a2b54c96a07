# RECO-DDD review and recommendation core, in Dafny

This project models the domain core of RECO-DDD, a movie and series catalogue with user reviews
and recommendations:

- the validated value objects `MovieRating` (1 to 10), `Email` and `Username`;
- the entities `Review`, `Genre`, `Title` (which owns its genres and reviews), `User` and `Profile`;
- the three aggregate coordinators, each adding a review under the one-review-per-user rule;
- `ReviewDomainService` (average rating, duplicate-review policy);
- `RecommendationService`, which ranks titles by genre match, then average rating, then name, and keeps the first `topN`;
- `ImportService.ImportFromTMDbAsync`, which creates a title on first import and merges into the stored one afterwards, resolving genre names into stored genres;
- `CreateReviewHandler.Handle`, which checks the user and the title, validates the rating, appends the review, stores the title and publishes a `ReviewCreatedEvent`.

Files and modules:

| file | modules |
|---|---|
| `common.dfy` | `Wrappers`, `Common` |
| `value_objects.dfy` | `ValueObjects` |
| `entities.dfy` | `Entities` |
| `aggregates.dfy` | `Aggregates` |
| `review_domain_service.dfy` | `ReviewDomainService` |
| `recommendation_service.dfy` | `RecommendationService` |
| `repositories.dfy` | `Repositories`, `Events` |
| `import_service.dfy` | `ImportService` |
| `create_review_handler.dfy` | `CreateReviewHandler` |

Modelling choices:

- **Exceptions.** A thrown exception becomes a `Failure(error)` result or a `Fail(error)` outcome, with one `Error` constructor per distinct throw. A constructor that can throw becomes a `static method Create` returning a `Result`. `Load` constructors stand for materialisation from storage and check nothing.
- **Values and classes.** Review, Genre, the preferences and the DTOs never change after construction, so they are datatypes. Title, User and Profile are updated in place, so they are classes with `modifies` clauses. `Title.Data()` is the value snapshot of a title (`TitleData`), and every mutator states its effect on it.
- **Stores.** The repositories are in-memory stores:
  - titles are a map from id to `TitleData`, and upsert replaces the whole stored title;
  - genres are a sequence in insertion order, looked up by exact name; a saved genre gets its position plus one as its id, and a valid store has unique names and ids numbered that way;
  - users are a map from id to `User`.
- **Inputs from outside.** Fresh GUIDs, the current time and the catalog's answer are parameters. `Guid` is `int`. `DateTime` is a `nat` tick count with `DateTime.MinValue` = 0.
- **Averages.** These are exact ratios (`Ratio(num, den)`), compared by cross-multiplication instead of as `double`.
- **One-review-per-user rule.** It appears in three coordinators. It is stated once, as the function `Aggregates.WriteReview`, and each coordinator method is proved to behave exactly like it.
- **Nulls.** A null string behaves like a blank one. A nullable stored string is an `Option<string>`. A null argument is modelled where the code branches on it or guards against it for an argument a caller can leave null: `SetProfile`, `AddOrUpdateProfile` and the preference adders refuse null; `RecommendByProfile` takes a `Profile?` and falls back to the by-average ranking on null; `ImportFromTMDb` takes the catalog's answer as an `Option<MovieDto>` and fails on none.

Repeated genre names: the first import attaches one genre per listed non-blank name, repeats included (ImportService.cs:44-51). Only the re-import path skips names already attached (ImportService.cs:76). `ImportService.CreateAttachesRepeatedName` shows the first import attaching the stored Drama twice. `ImportService.CreateThenMergeChangesNothing` shows that a second import leaves it that way.

## Model

| member | source | states |
|---|---|---|
| Common.DecimalRoundTrip | src/RECO.Domain/ValueObjects/MovieRating.cs:18 | the decimal rendering of a natural number is a non-empty digit string without a leading zero that reads back as the same number |
| Common.IsWhiteSpace | src/RECO.Domain/Entities/Title.cs:35 | the white-space set of `string.IsNullOrWhiteSpace`; among printable ASCII characters only the space is white space |
| Common.IsBlank | src/RECO.Domain/Entities/Title.cs:35 | the empty string is blank, and a blank string contains no printable ASCII character other than the space |
| ValueObjects.NewMovieRating | src/RECO.Domain/ValueObjects/MovieRating.cs:12-16 | a rating is built exactly when the value is in 1..10 and keeps the value; otherwise RatingOutOfRange |
| ValueObjects.RatingToString | src/RECO.Domain/ValueObjects/MovieRating.cs:18 | the text of a valid rating is one digit, or two for 10, and reads back as the rating |
| ValueObjects.NewEmail | src/RECO.Domain/ValueObjects/Email.cs:13-18 | a blank address fails as blank; a non-blank address without '@' fails as missing '@'; success exactly when the address contains '@', keeping it |
| ValueObjects.EmailToString | src/RECO.Domain/ValueObjects/Email.cs:20 | the text of an email builds the same email again |
| ValueObjects.NewUsername | src/RECO.Domain/ValueObjects/Username.cs:12-17 | blank fails first, then fewer than 3 characters; success exactly when non-blank and at least 3 long |
| ValueObjects.UsernameToString | src/RECO.Domain/ValueObjects/Username.cs:19 | the text of a username builds the same username again |
| Entities.NewGenre | src/RECO.Domain/Entities/Title.cs:92-96 | a genre is built exactly when the name is not blank, with the name kept and the id not yet assigned |
| Entities.NewReview | src/RECO.Domain/Entities/Review.cs:16-20 | a review is built exactly when the rating is in 1..10, with every field as given |
| Entities.HasReviewBy | src/RECO.Domain/Aggregates/TitleAggregate.cs:31 | the scan is true exactly when some review in the list is by the user |
| Entities.MeanRating | src/RECO.Domain/Aggregates/TitleAggregate.cs:45-49 | 0 for no reviews; otherwise the ratio equals the sum of the ratings over their count |
| Entities.SumRatings | src/RECO.Domain/Aggregates/TitleAggregate.cs:48 | when every rating is in 1..10, the sum of the ratings lies between the count and ten times the count |
| Entities.MeanWithinRatingRange | src/RECO.Domain/Aggregates/TitleAggregate.cs:48 | the average of a non-empty list of valid ratings lies in [1, 10] |
| Entities.InitialTitle | src/RECO.Domain/Entities/Title.cs:33-42 | a new title has the minimum release date, no genres, reviews, synopsis or poster, and is well formed when its name is not blank |
| Entities.Title.Load | src/RECO.Domain/Entities/Title.cs:31 | a title loaded from storage holds exactly the stored snapshot |
| Entities.Title.Create | src/RECO.Domain/Entities/Title.cs:33-42 | fails exactly for a blank name; otherwise a fresh, well-formed title with the given id, catalog id, type and name |
| Entities.Title.SetReleaseDate | src/RECO.Domain/Entities/Title.cs:49-55 | a given date replaces the release date; none leaves the title unchanged |
| Entities.Title.AddReview | src/RECO.Domain/Entities/Title.cs:61-66 | refused with nothing changed exactly when the review belongs to another title; otherwise appended last; keeps the title well formed and all ratings valid |
| Entities.Title.SetSynopsis | src/RECO.Domain/Entities/Title.cs:68 | only the synopsis changes, to the given text |
| Entities.Title.SetPoster | src/RECO.Domain/Entities/Title.cs:69 | only the poster URL changes, to the given URL |
| Entities.Title.Rename | src/RECO.Domain/Entities/Title.cs:70-74 | refused with nothing changed exactly for a blank name; otherwise only the name changes |
| Entities.Title.AddGenre | src/RECO.Domain/Entities/Title.cs:75 | the genre is appended; nothing else changes |
| Entities.Title.SetType | src/RECO.Domain/Entities/Title.cs:80 | only the type changes |
| Entities.Profile.constructor | src/RECO.Domain/Entities/Profile.cs:18-23 | a new profile has its ids and creation time and no preferences |
| Entities.Profile.AddGenrePreference | src/RECO.Domain/Entities/Profile.cs:25-29 | null is refused with nothing changed; otherwise the preference is appended; the person preferences never change |
| Entities.Profile.AddPersonPreference | src/RECO.Domain/Entities/Profile.cs:31-35 | null is refused with nothing changed; otherwise the preference is appended; the genre preferences never change |
| Entities.User.Load | src/RECO.Domain/Entities/User.cs:21 | a user loaded from storage holds the stored fields |
| Entities.User.Create | src/RECO.Domain/Entities/User.cs:23-33 | a blank email fails first, then a blank password hash; otherwise a fresh user with the given id, email, hash, display name and creation time, and no profile |
| Entities.User.SetProfile | src/RECO.Domain/Entities/User.cs:35-38 | null is refused with the profile unchanged; otherwise the profile is the given one |
| Aggregates.WriteReview | src/RECO.Domain/Aggregates/TitleAggregate.cs:27-40 | refused as a duplicate exactly when the user already has a review on the title; otherwise refused exactly for a rating outside 1..10; on success the new review, owned by the title, is appended last and nothing else changes |
| Aggregates.WriteReviewKeepsInvariants | src/RECO.Domain/Aggregates/UserAggregate.cs:11 | a successful write keeps at most one review per user, keeps the title well formed and keeps all ratings valid |
| Aggregates.SecondReviewIsRefused | src/RECO.Domain/Aggregates/TitleAggregate.cs:31-34 | after a user's review is written, any further write by that user is refused as a duplicate |
| Aggregates.TitleAggregate.constructor | src/RECO.Domain/Aggregates/TitleAggregate.cs:18-21 | the aggregate wraps the given title |
| Aggregates.TitleAggregate.AddReview | src/RECO.Domain/Aggregates/TitleAggregate.cs:27-40 | returns and stores exactly what the validated write produces; on refusal the title is unchanged |
| Aggregates.TitleAggregate.CalculateAverageRating | src/RECO.Domain/Aggregates/TitleAggregate.cs:45-49 | 0 without reviews; otherwise the mean of the ratings, within [1, 10] when all ratings are valid |
| Aggregates.TitleAggregate.GetAllReviews | src/RECO.Domain/Aggregates/TitleAggregate.cs:54 | the title's reviews, in stored order |
| Aggregates.AllReviews | src/RECO.Domain/Aggregates/UserAggregate.cs:61 | a review is in the flattened list exactly when it belongs to one of the titles |
| Aggregates.ReviewsBy | src/RECO.Domain/Aggregates/UserAggregate.cs:61 | the filter keeps exactly the reviews by the user |
| Aggregates.ReviewsByKeepsOrder | src/RECO.Domain/Aggregates/UserAggregate.cs:61 | the filter lists the user's reviews at increasing positions of the input, and every position holding a review by the user is among them |
| Aggregates.UserAggregate.constructor | src/RECO.Domain/Aggregates/UserAggregate.cs:18-21 | the aggregate wraps the given user |
| Aggregates.UserAggregate.AddOrUpdateProfile | src/RECO.Domain/Aggregates/UserAggregate.cs:26-30 | null is refused with the profile unchanged; otherwise the user's profile is the given one |
| Aggregates.UserAggregate.AddReviewToTitle | src/RECO.Domain/Aggregates/UserAggregate.cs:37-52 | returns and stores exactly what the validated write produces for this user; on refusal the title is unchanged |
| Aggregates.UserAggregate.GetReviewHistory | src/RECO.Domain/Aggregates/UserAggregate.cs:58-62 | a review is in the history exactly when it is by this user and belongs to one of the given titles |
| Aggregates.UserAggregate.HistoryKeepsOrder | src/RECO.Domain/Aggregates/UserAggregate.cs:61 | the history lists this user's reviews in flattened order (title by title, then stored order), each as often as it occurs |
| Aggregates.ReviewAggregate.constructor | src/RECO.Domain/Aggregates/ReviewAggregate.cs:15-19 | the aggregate holds the given user and title |
| Aggregates.ReviewAggregate.EnsureNoDuplicateReview | src/RECO.Domain/Aggregates/ReviewAggregate.cs:25-31 | fails as a duplicate exactly when the title holds a review by the user |
| Aggregates.ReviewAggregate.AddReview | src/RECO.Domain/Aggregates/ReviewAggregate.cs:37-43 | returns and stores exactly what the validated write produces; on refusal the title is unchanged |
| ReviewDomainService.CalculateAverage | src/RECO.Domain/Services/ReviewDomainService.cs:13-18 | 0 without reviews; otherwise the mean of the ratings, within [1, 10] when all ratings are valid |
| ReviewDomainService.EnforceUserCanReview | src/RECO.Domain/Services/ReviewDomainService.cs:20-28 | fails as a duplicate exactly when the title holds a review by the user |
| ReviewDomainService.PolicyAgreesWithWrite | src/RECO.Domain/Services/ReviewDomainService.cs:24-27 | the policy check fails exactly when the validated write is refused as a duplicate |
| RecommendationService.NameLe | src/RECO.Domain/Services/RecommendationService.cs:23 | ordinal name order, in which a prefix comes before every extension of it |
| RecommendationService.NameLeTotal | src/RECO.Domain/Services/RecommendationService.cs:23 | any two names are ordered one way or the other |
| RecommendationService.NameLeTransitive | src/RECO.Domain/Services/RecommendationService.cs:23 | the name order is transitive |
| RecommendationService.Score | src/RECO.Domain/Services/RecommendationService.cs:39 | the score is 0 or 1, and 1 exactly when some genre of the title has a preferred id |
| RecommendationService.KeyOf | src/RECO.Domain/Services/RecommendationService.cs:39 | a title's key holds its score, its name and its mean rating: 0 without reviews, the rating sum over the count otherwise, within [1, 10] for valid ratings |
| RecommendationService.KeyLe | src/RECO.Domain/Services/RecommendationService.cs:40-42 | score down, then average down, then name up; every key may precede itself |
| RecommendationService.KeyLeTotal | src/RECO.Domain/Services/RecommendationService.cs:40-42 | any two ranking keys are ordered one way or the other |
| RecommendationService.KeyLeTransitive | src/RECO.Domain/Services/RecommendationService.cs:40-42 | the key order (score down, average down, name up) is transitive |
| RecommendationService.Insert | src/RECO.Domain/Services/RecommendationService.cs:40-42 | inserting adds exactly the one element and loses none |
| RecommendationService.Rank | src/RECO.Domain/Services/RecommendationService.cs:38-42 | the ranking holds exactly the candidates, each as often as given |
| RecommendationService.InsertPrecedes | src/RECO.Domain/Services/RecommendationService.cs:40-42 | a key that may precede every element of a list and the inserted one may precede every element of the result |
| RecommendationService.ConsRanked | src/RECO.Domain/Services/RecommendationService.cs:40-42 | an element that may precede all of a ranked list can be put in front of it, keeping it ranked |
| RecommendationService.RankedTail | src/RECO.Domain/Services/RecommendationService.cs:40-42 | the tail of a ranked list is ranked and its head may precede all of it |
| RecommendationService.InsertRanked | src/RECO.Domain/Services/RecommendationService.cs:40-42 | inserting into a ranked list gives a ranked list |
| RecommendationService.RankIsSortedPermutation | src/RECO.Domain/Services/RecommendationService.cs:20-23 | ranking returns the candidates rearranged, in key order |
| RecommendationService.Take | src/RECO.Domain/Services/RecommendationService.cs:24 | the first min(topN, count) elements, none for topN <= 0 |
| RecommendationService.PrefixMultiset | src/RECO.Domain/Services/RecommendationService.cs:24 | a prefix's elements plus the rest's elements are the whole list's |
| RecommendationService.PreferredIds | src/RECO.Domain/Services/RecommendationService.cs:36 | an id is preferred exactly when some genre preference of the profile carries it |
| RecommendationService.RecommendByAverageRating | src/RECO.Domain/Services/RecommendationService.cs:17-26 | returns min(topN, count) of the candidates, ordered by average down then name up; it is the start of the full ranking |
| RecommendationService.RecommendByProfile | src/RECO.Domain/Services/RecommendationService.cs:31-45 | without a profile, exactly the by-average result; with one, min(topN, count) of the candidates ordered by genre match, then average, then name; it is the start of the full ranking |
| RecommendationService.PrefixPrecedesSuffix | src/RECO.Domain/Services/RecommendationService.cs:43 | in a ranked list, every element of a prefix may precede every element after it |
| RecommendationService.OmittedDoNotOutrank | src/RECO.Domain/Services/RecommendationService.cs:38-44 | no candidate left out ranks above one that was returned |
| RecommendationService.RankedOrder | src/RECO.Domain/Services/RecommendationService.cs:40-42 | in the result, a higher score comes first; at equal score a higher average comes first; at equal average the name order holds |
| RecommendationService.PreferredGenresComeFirst | src/RECO.Domain/Services/RecommendationService.cs:40 | every candidate matching a preferred genre is ranked before every one that does not |
| RecommendationService.OmittedMatchImpliesAllMatch | src/RECO.Domain/Services/RecommendationService.cs:38-44 | if a matching candidate was left out, every returned title matches |
| Repositories.UpsertKeepsTmdbIdsUnique | src/RECO.Application/Services/ImportService.cs:32-34 | storing a title keeps catalog ids unique when it replaces the title with its catalog id, or when no title has that id |
| Repositories.TitleStore.GetById | src/RECO.Infrastructure/Repositories/EFTitleRepository.cs:38-49 | null exactly when no title has the id; otherwise a fresh, well-formed title holding the stored snapshot with its genres and reviews |
| Repositories.TitleStore.GetByTmdbId | src/RECO.Infrastructure/Repositories/EFTitleRepository.cs:33-36 | null exactly when no stored title has the catalog id; otherwise a fresh copy of one that has it |
| Repositories.TitleStore.Upsert | src/RECO.Infrastructure/Repositories/EFTitleRepository.cs:51-70 | the stored title under the id is replaced whole by the given one; the store stays valid for a valid title |
| Repositories.FindGenre | src/RECO.Infrastructure/Repositories/EFGenreRepository.cs:19-22 | a found genre is in the store under that exact name; none exactly when no stored genre has the name |
| Repositories.FindGenreAppend | src/RECO.Infrastructure/Repositories/EFGenreRepository.cs:19-22 | appending genres does not change a lookup that already succeeds |
| Repositories.GenreStore.GetByName | src/RECO.Infrastructure/Repositories/EFGenreRepository.cs:19-22 | returns the first stored genre with that name, or none |
| Repositories.GenreStore.Add | src/RECO.Infrastructure/Repositories/EFGenreRepository.cs:24-29 | saves the genre last, with the next id (its position plus one, as the store's invariant requires), and returns the saved genre |
| Repositories.UserStore.GetById | src/RECO.Infrastructure/Repositories/EFUserRepository.cs:36-39 | null exactly when no user has the id; otherwise the stored user |
| Events.EventLog.Publish | src/RECO.Domain/Interfaces/IDomainEventDispatcher.cs:11 | the event is added after all earlier ones |
| ImportService.ResolveGenre | src/RECO.Application/Services/ImportService.cs:45-50 | a genre of the requested name: the stored one with the store unchanged when the lookup finds it, otherwise a new genre with the next id saved last |
| ImportService.ResolveGenreIsFound | src/RECO.Application/Services/ImportService.cs:45-50 | after resolving, a lookup of the name finds the resolved genre, and the store names stay unique |
| ImportService.AttachGenres | src/RECO.Application/Services/ImportService.cs:42-52 | genres are only added, to the title and to the store |
| ImportService.AttachStep | src/RECO.Application/Services/ImportService.cs:42-52 | one turn of the loop: a blank name is skipped; otherwise the name is resolved and its genre attached, unless the re-import loop finds that name attached already |
| ImportService.AttachKeepsStoreUnique | src/RECO.Application/Services/ImportService.cs:45-50 | the genre loop never stores a second genre of the same name |
| ImportService.AttachResolvesEveryName | src/RECO.Application/Services/ImportService.cs:67-77 | after the loop every non-blank name is both stored and attached |
| ImportService.KnownPersists | src/RECO.Application/Services/ImportService.cs:67-77 | a name that is stored and attached stays so when genres are only added |
| ImportService.AttachedGenresAreStored | src/RECO.Application/Services/ImportService.cs:45-51 | every genre the loop attaches is in the genre store |
| ImportService.AttachStoresOnlyNew | src/RECO.Application/Services/ImportService.cs:44-50 | the loop stores genres only for listed non-blank names the store lacked, each name once, numbered by position |
| ImportService.DedupedAttachAddsOnlyNew | src/RECO.Application/Services/ImportService.cs:69-76 | the re-import loop attaches only listed non-blank names not attached yet, each name once, whatever was attached before |
| ImportService.AddsOnlyNewKeepsUnique | src/RECO.Application/Services/ImportService.cs:76 | appending only names unlike every earlier name keeps a duplicate-free list duplicate-free |
| ImportService.PlainAttachNames | src/RECO.Application/Services/ImportService.cs:42-52 | the first-import loop attaches one genre per non-blank name, in order, repeats included |
| ImportService.DedupedAttachOfPresentNames | src/RECO.Application/Services/ImportService.cs:67-77 | when every name is stored and attached already, the re-import loop changes nothing |
| ImportService.ApplyMetadata | src/RECO.Application/Services/ImportService.cs:37-39 | a non-blank overview or poster path replaces its field; a release date other than the minimum replaces the date; nothing else changes |
| ImportService.ImportCreate | src/RECO.Application/Services/ImportService.cs:34-55 | fails exactly when the name ("Untitled" without a title) is blank; otherwise a well-formed movie title with the catalog id, no reviews, the metadata rules applied and one genre per non-blank name; the store gains only genres for listed non-blank names it lacked, each once with the next id, and keeps unique names |
| ImportService.ImportMerge | src/RECO.Application/Services/ImportService.cs:56-80 | keeps id, catalog id, type and reviews; renames only to a non-blank title; applies the metadata rules; keeps every attached genre, attaches every listed non-blank name, and adds only names not attached yet, each once; the store gains only genres for listed non-blank names it lacked, each once with the next id; keeps names unique and the title well formed |
| ImportService.MergeIsIdempotent | src/RECO.Application/Services/ImportService.cs:56-80 | importing the same movie into a title a second time changes neither the title nor the genre store |
| ImportService.CreateThenMergeChangesNothing | src/RECO.Application/Services/ImportService.cs:32-80 | a re-import right after the first import leaves the title and the genre store as the first import produced them |
| ImportService.CreateAttachesRepeatedName | src/RECO.Application/Services/ImportService.cs:42-52 | a first import listing "Drama" twice attaches the one stored Drama twice |
| ImportService.AttachGenreNames | src/RECO.Application/Services/ImportService.cs:42-52 | the loop (either path's) leaves the title's genres and the genre store exactly as the genre function says and changes nothing else of the title; the title stays valid and the store names unique |
| ImportService.ApplyMovieMetadata | src/RECO.Application/Services/ImportService.cs:37-39 | the in-place metadata updates leave the title exactly as the metadata function says, and keep it valid |
| ImportService.ImportNewTitle | src/RECO.Application/Services/ImportService.cs:34-55 | the first-import branch does exactly what the create function says, stores the title under the new id, and keeps both stores valid and catalog ids unique |
| ImportService.ImportIntoTitle | src/RECO.Application/Services/ImportService.cs:56-80 | the re-import branch does exactly what the merge function says to the stored title, and keeps both stores valid and catalog ids unique |
| ImportService.ImportFromTMDb | src/RECO.Application/Services/ImportService.cs:27-81 | no movie fails with nothing changed; an unknown catalog id creates; a known one merges into the title carrying it; both stores stay valid and catalog ids stay unique |
| CreateReviewHandler.EventFor | src/RECO.Application/Handlers/CreateReviewHandler.cs:54 | the event carries the review's id, title, author, rating and creation time |
| CreateReviewHandler.HandleOutcome | src/RECO.Application/Handlers/CreateReviewHandler.cs:31-58 | a missing user fails first, then a missing title, then a rating outside 1..10; otherwise the new review is appended to the title and the event carries its fields |
| CreateReviewHandler.HandleKeepsTitleWellFormed | src/RECO.Application/Handlers/CreateReviewHandler.cs:46-51 | on a valid store, a successful call leaves the title well formed, its last review by the user, and all ratings valid |
| CreateReviewHandler.HandleAdmitsSecondReview | src/RECO.Application/Handlers/CreateReviewHandler.cs:46-48 | a second review by a user who has already reviewed the title is accepted, leaving two reviews by one user |
| CreateReviewHandler.HandleChecked | src/RECO.Application/Handlers/CreateReviewHandler.cs:43-48 | the handler with the duplicate check: refuses a user who has already reviewed the title; on success appends one review by the user with the event for it |
| CreateReviewHandler.HandleCheckedKeepsOneReviewPerUser | src/RECO.Domain/Aggregates/TitleAggregate.cs:11 | the checked handler keeps at most one review per user on the title |
| CreateReviewHandler.HandleCheckedAgreesOnFirstReview | src/RECO.Application/Handlers/CreateReviewHandler.cs:43-48 | for a user's first review of a title, the checked and the written handler agree |
| CreateReviewHandler.Handle | src/RECO.Application/Handlers/CreateReviewHandler.cs:31-58 | does exactly what the handler function says: on failure nothing is stored or published; on success the title is stored with the review and one event is published; the store stays valid |

## Left out

- The other `ArgumentNullException` guards (null title, user, review, candidates, DTO) are left out: those arguments are never null in the model.
- The default `topN = 10` of both recommenders (RecommendationService.cs:17,31) is left out: `topN` is always passed.
- The recommenders rank `TitleData` snapshots, not `Title` references, so they return copies of the candidates rather than the same objects.
- `GetReviewHistory` and both recommenders return deferred LINQ queries, evaluated again on each enumeration. The model returns the sequence one evaluation gives at the time of the call.
- `Title.AddAvailability` and `PlatformAvailability` are left out: no operation in this core uses availabilities.
- Averages are `double` in the source. The model uses exact ratios, so floating-point rounding in `Average` and in the sort comparison is not modelled.
- `ThenBy(x => x.Title.TitleName)` uses the runtime's default string comparison, which is culture-sensitive. The model orders names by ordinal character order.
- `Username` length is counted in UTF-16 code units. The model counts characters of `seq<char>`, which agree only for text inside the Basic Multilingual Plane.
- `DateTime.SpecifyKind(..., Utc)` is left out: a date is a tick count without a kind.
- Asynchrony, cancellation, database transactions and concurrent imports are left out. Each operation runs alone against in-memory stores.
- `EFTitleRepository.GetByTmdbIdAsync` queries without loading genres or reviews. The model's store always returns the whole title. The EF-level delete-and-insert during upsert is modelled as a plain replacement.
- The network call `ITMDbClient.GetMovieDetailsAsync` is not part of this model. Its answer is the `Option<MovieDto>` parameter of `ImportFromTMDb`.
- `Guid.NewGuid()` and `DateTime.UtcNow` are parameters. Their uniqueness and monotonicity are not modelled. `ImportFromTMDb` requires the new id to be unused, as a new GUID is in practice.
- `CreateReviewHandler.Handle`: the null check on `request.Review` is left out. The DTO is a value and is always present.
- A `TitleIdMismatch` in `CreateReviewHandler.Handle` (an `InvalidOperationException` in the source) cannot happen on a valid store, because the title is fetched by the DTO's title id. `HandleOutcome` still models that branch for stores that are not valid.
- `ToString` of `Email` and `Username` is the identity. `MovieRating.ToString` renders the decimal digits. Culture-specific digit formatting is left out.
- The two genre loops of `ImportFromTMDbAsync` are one method, `ImportService.AttachGenreNames`, with a flag that switches on the re-import loop's already-attached check.

## Findings

| source | as written | input that shows it | evidently intended | confidence | as-written member | corrected member |
|---|---|---|---|---|---|---|
| src/RECO.Application/Handlers/CreateReviewHandler.cs:46-48 | the handler appends the review through `Title.AddReview`, which checks only the title id, so the one-review-per-user rule enforced by all three aggregates is skipped | user 7 already has a review on title 1; a second `ReviewDto(1, 7, 3, None)` is accepted and the title then holds two reviews by user 7 | refuse a second review by the same user on the same title, as `TitleAggregate.AddReview` does | not executed; medium (the aggregates and their comments state the rule, but the handler's own tests only cover a first review) | CreateReviewHandler.HandleAdmitsSecondReview | CreateReviewHandler.HandleChecked |
