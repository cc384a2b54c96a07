/** ImportService.ImportFromTMDbAsync: map one catalog movie onto a Title, creating the Title on
    first import and merging into the stored one afterwards, and resolve genre names into stored
    genres on the way. The pure functions `ImportCreate` and `ImportMerge` state what one import
    does to the stores; the method `ImportFromTMDb` does it step by step and is proved to agree. */
module ImportService {
  import opened Wrappers
  import opened Common
  import opened Entities
  import opened Repositories

  /** The catalog's movie record. A missing title is `None`; a missing date is `None`. */
  datatype MovieDto = MovieDto(id: int, title: Option<string>, overview: Option<string>,
                               posterPath: Option<string>, releaseDate: Option<DateTime>,
                               genres: seq<string>)

  // ---------------------------------------------------------------- genre resolution

  datatype Resolved = Resolved(genre: Genre, store: seq<Genre>)

  /** The stored genre of that name, or a new genre saved with the next id. */
  function ResolveGenre(store: seq<Genre>, name: string): (r: Resolved)
    ensures r.genre.name == name
    ensures FindGenre(store, name).Some? ==> r == Resolved(FindGenre(store, name).value, store)
    ensures FindGenre(store, name).None? ==> r.genre == Genre(|store| + 1, name) && r.store == store + [r.genre]
  {
    match FindGenre(store, name)
    case Some(g) => Resolved(g, store)
    case None => Resolved(Genre(|store| + 1, name), store + [Genre(|store| + 1, name)])
  }

  /** After resolving, a lookup of the name finds the resolved genre, and the store names stay
      unique. */
  lemma ResolveGenreIsFound(store: seq<Genre>, name: string)
    ensures var r := ResolveGenre(store, name);
            FindGenre(r.store, name) == Some(r.genre) && (UniqueNames(store) ==> UniqueNames(r.store))
  {
    var r := ResolveGenre(store, name);
    if FindGenre(store, name).None? {
      FindGenreAppend(store, [r.genre], name);
    }
  }

  predicate HasGenreNamed(gs: seq<Genre>, name: string) {
    exists i :: 0 <= i < |gs| && gs[i].name == name
  }

  function GenreNames(gs: seq<Genre>): seq<string> {
    seq(|gs|, i requires 0 <= i < |gs| => gs[i].name)
  }

  /** The names that are not blank, in order, duplicates kept. */
  function NonBlank(names: seq<string>): seq<string>
    decreases |names|
  {
    if names == [] then []
    else (if IsBlank(names[0]) then [] else [names[0]]) + NonBlank(names[1..])
  }

  lemma HasGenreNamedInLonger(gs: seq<Genre>, more: seq<Genre>, name: string)
    requires gs <= more && HasGenreNamed(gs, name)
    ensures HasGenreNamed(more, name)
  {
    var j :| 0 <= j < |gs| && gs[j].name == name;
    assert more[j] == gs[j];
  }

  lemma FindGenreInLonger(store: seq<Genre>, more: seq<Genre>, name: string)
    requires store <= more && FindGenre(store, name).Some?
    ensures FindGenre(more, name) == FindGenre(store, name)
  {
    FindGenreAppend(store, more[|store|..], name);
    assert store + more[|store|..] == more;
  }

  datatype Attached = Attached(genres: seq<Genre>, store: seq<Genre>)

  /** The genre loop: blank names are skipped, every other name is resolved (and saved when new)
      and its genre attached — unless `dedupe` is on and a genre of that name is attached already.
      Genres are only ever added, to the title and to the store. */
  function AttachGenres(names: seq<string>, attached: seq<Genre>, store: seq<Genre>, dedupe: bool): (r: Attached)
    ensures attached <= r.genres && store <= r.store
    decreases |names|
  {
    if names == [] then Attached(attached, store)
    else if IsBlank(names[0]) then AttachGenres(names[1..], attached, store, dedupe)
    else
      var res := ResolveGenre(store, names[0]);
      var next := if dedupe && HasGenreNamed(attached, res.genre.name) then attached else attached + [res.genre];
      AttachGenres(names[1..], next, res.store, dedupe)
  }

  /** One turn of the genre loop, at position i. */
  lemma AttachStep(names: seq<string>, i: int, attached: seq<Genre>, store: seq<Genre>, dedupe: bool)
    requires 0 <= i < |names|
    ensures AttachGenres(names[i..], attached, store, dedupe) ==
            if IsBlank(names[i]) then AttachGenres(names[i + 1..], attached, store, dedupe)
            else
              var res := ResolveGenre(store, names[i]);
              var next := if dedupe && HasGenreNamed(attached, names[i]) then attached else attached + [res.genre];
              AttachGenres(names[i + 1..], next, res.store, dedupe)
  {
    assert names[i..][0] == names[i] && names[i..][1..] == names[i + 1..];
  }

  /** The genre store never gains a second genre of the same name. */
  lemma {:induction false} AttachKeepsStoreUnique(names: seq<string>, attached: seq<Genre>, store: seq<Genre>, dedupe: bool)
    ensures UniqueNames(store) ==> UniqueNames(AttachGenres(names, attached, store, dedupe).store)
    decreases |names|
  {
    if names != [] {
      if IsBlank(names[0]) {
        AttachKeepsStoreUnique(names[1..], attached, store, dedupe);
      } else {
        var res := ResolveGenre(store, names[0]);
        ResolveGenreIsFound(store, names[0]);
        var next := if dedupe && HasGenreNamed(attached, res.genre.name) then attached else attached + [res.genre];
        AttachKeepsStoreUnique(names[1..], next, res.store, dedupe);
      }
    }
  }

  /** The name is both in the store and attached. */
  predicate Known(a: Attached, name: string) {
    FindGenre(a.store, name).Some? && HasGenreNamed(a.genres, name)
  }

  lemma KnownPersists(a: Attached, b: Attached, name: string)
    requires a.genres <= b.genres && a.store <= b.store && Known(a, name)
    ensures Known(b, name)
  {
    HasGenreNamedInLonger(a.genres, b.genres, name);
    FindGenreInLonger(a.store, b.store, name);
  }

  /** Every non-blank name ends up both stored and attached. */
  lemma {:induction false} AttachResolvesEveryName(names: seq<string>, attached: seq<Genre>, store: seq<Genre>, dedupe: bool)
    ensures var r := AttachGenres(names, attached, store, dedupe);
            forall i :: 0 <= i < |names| && !IsBlank(names[i]) ==> Known(r, names[i])
    decreases |names|
  {
    if names != [] {
      var r := AttachGenres(names, attached, store, dedupe);
      var mid := Attached(attached, store);
      if !IsBlank(names[0]) {
        var res := ResolveGenre(store, names[0]);
        ResolveGenreIsFound(store, names[0]);
        mid := Attached(if dedupe && HasGenreNamed(attached, res.genre.name) then attached else attached + [res.genre],
                        res.store);
        assert HasGenreNamed(mid.genres, names[0]) by {
          if mid.genres != attached {
            assert mid.genres[|attached|].name == names[0];
          }
        }
      }
      assert r == AttachGenres(names[1..], mid.genres, mid.store, dedupe);
      AttachResolvesEveryName(names[1..], mid.genres, mid.store, dedupe);
      forall i | 0 <= i < |names| && !IsBlank(names[i]) ensures Known(r, names[i]) {
        if i == 0 {
          KnownPersists(mid, r, names[0]);
        } else {
          assert names[i] == names[1..][i - 1];
        }
      }
    }
  }

  /** Every genre the loop attaches is one that is in the store afterwards. */
  lemma {:induction false} AttachedGenresAreStored(names: seq<string>, attached: seq<Genre>, store: seq<Genre>, dedupe: bool)
    ensures var r := AttachGenres(names, attached, store, dedupe);
            forall i :: |attached| <= i < |r.genres| ==> r.genres[i] in r.store
    decreases |names|
  {
    if names != [] {
      var r := AttachGenres(names, attached, store, dedupe);
      if IsBlank(names[0]) {
        assert r == AttachGenres(names[1..], attached, store, dedupe);
        AttachedGenresAreStored(names[1..], attached, store, dedupe);
      } else {
        var res := ResolveGenre(store, names[0]);
        var next := if dedupe && HasGenreNamed(attached, res.genre.name) then attached else attached + [res.genre];
        assert r == AttachGenres(names[1..], next, res.store, dedupe);
        AttachedGenresAreStored(names[1..], next, res.store, dedupe);
        if next != attached {
          ResolveGenreIsFound(store, names[0]);
          assert r.genres[|attached|] == res.genre;
          var j :| 0 <= j < |res.store| && res.store[j] == res.genre;
          assert r.store[j] == res.genre;
        }
      }
    }
  }

  /** `after` is `before` with genres appended whose names are non-blank names from the list,
      each new name unlike every name before it. */
  ghost predicate AddsOnlyNew(before: seq<Genre>, after: seq<Genre>, names: seq<string>) {
    && before <= after
    && (forall j :: |before| <= j < |after| ==> after[j].name in names && !IsBlank(after[j].name))
    && (forall i, j :: 0 <= i < j < |after| && |before| <= j ==> after[i].name != after[j].name)
  }

  lemma AddsOnlyNewTrans(a: seq<Genre>, b: seq<Genre>, c: seq<Genre>, n1: seq<string>, n2: seq<string>,
                         names: seq<string>)
    requires AddsOnlyNew(a, b, n1) && AddsOnlyNew(b, c, n2)
    requires (forall x :: x in n1 ==> x in names) && (forall x :: x in n2 ==> x in names)
    ensures AddsOnlyNew(a, c, names)
  {
    forall j | |a| <= j < |b| ensures c[j] == b[j] {
    }
  }

  lemma AddsOnlyNewKeepsUnique(before: seq<Genre>, after: seq<Genre>, names: seq<string>)
    requires AddsOnlyNew(before, after, names)
    ensures UniqueNames(before) ==> UniqueNames(after)
  {
    if UniqueNames(before) {
      forall i, j | 0 <= i < j < |before| ensures after[i].name != after[j].name {
        assert after[i] == before[i] && after[j] == before[j];
      }
    }
  }

  lemma NumberedJoin(a: seq<Genre>, b: seq<Genre>)
    requires a <= b && NumberedFrom(a, 0) && NumberedFrom(b, |a|)
    ensures NumberedFrom(b, 0)
  {
    forall j | 0 <= j < |a| ensures b[j].id == j + 1 {
      assert b[j] == a[j];
    }
  }

  /** The loop only stores genres for listed non-blank names the store lacked, each once, with
      the next id. */
  lemma {:induction false} AttachStoresOnlyNew(names: seq<string>, attached: seq<Genre>, store: seq<Genre>, dedupe: bool)
    ensures var r := AttachGenres(names, attached, store, dedupe);
            AddsOnlyNew(store, r.store, names) && NumberedFrom(r.store, |store|)
    decreases |names|
  {
    if names != [] {
      var r := AttachGenres(names, attached, store, dedupe);
      assert forall x :: x in names[1..] ==> x in names;
      if IsBlank(names[0]) {
        assert r == AttachGenres(names[1..], attached, store, dedupe);
        AttachStoresOnlyNew(names[1..], attached, store, dedupe);
        AddsOnlyNewTrans(store, store, r.store, [], names[1..], names);
      } else {
        var res := ResolveGenre(store, names[0]);
        var next := if dedupe && HasGenreNamed(attached, res.genre.name) then attached else attached + [res.genre];
        assert r == AttachGenres(names[1..], next, res.store, dedupe);
        AttachStoresOnlyNew(names[1..], next, res.store, dedupe);
        assert AddsOnlyNew(store, res.store, [names[0]]);
        AddsOnlyNewTrans(store, res.store, r.store, [names[0]], names[1..], names);
        forall j | |store| <= j < |res.store| ensures r.store[j].id == j + 1 {
          assert r.store[j] == res.store[j];
        }
      }
    }
  }

  /** The re-import loop only attaches listed non-blank names not attached yet, each once. */
  lemma {:induction false} DedupedAttachAddsOnlyNew(names: seq<string>, attached: seq<Genre>, store: seq<Genre>)
    ensures AddsOnlyNew(attached, AttachGenres(names, attached, store, true).genres, names)
    decreases |names|
  {
    if names != [] {
      var r := AttachGenres(names, attached, store, true);
      assert forall x :: x in names[1..] ==> x in names;
      if IsBlank(names[0]) {
        assert r == AttachGenres(names[1..], attached, store, true);
        DedupedAttachAddsOnlyNew(names[1..], attached, store);
        AddsOnlyNewTrans(attached, attached, r.genres, [], names[1..], names);
      } else {
        var res := ResolveGenre(store, names[0]);
        var next := if HasGenreNamed(attached, res.genre.name) then attached else attached + [res.genre];
        assert r == AttachGenres(names[1..], next, res.store, true);
        DedupedAttachAddsOnlyNew(names[1..], next, res.store);
        assert AddsOnlyNew(attached, next, [names[0]]);
        AddsOnlyNewTrans(attached, next, r.genres, [names[0]], names[1..], names);
      }
    }
  }

  lemma GenreNamesAppend(gs: seq<Genre>, g: Genre)
    ensures GenreNames(gs + [g]) == GenreNames(gs) + [g.name]
  {
  }

  /** With `dedupe` off, one genre is attached per non-blank name, in order, duplicates kept. */
  lemma {:induction false} PlainAttachNames(names: seq<string>, attached: seq<Genre>, store: seq<Genre>)
    ensures GenreNames(AttachGenres(names, attached, store, false).genres) == GenreNames(attached) + NonBlank(names)
    decreases |names|
  {
    var r := AttachGenres(names, attached, store, false);
    if names == [] {
      assert GenreNames(attached) + [] == GenreNames(attached);
    } else if IsBlank(names[0]) {
      assert r == AttachGenres(names[1..], attached, store, false);
      assert NonBlank(names) == NonBlank(names[1..]);
      PlainAttachNames(names[1..], attached, store);
    } else {
      var res := ResolveGenre(store, names[0]);
      var next := attached + [res.genre];
      assert r == AttachGenres(names[1..], next, res.store, false);
      PlainAttachNames(names[1..], next, res.store);
      GenreNamesAppend(attached, res.genre);
      assert NonBlank(names) == [names[0]] + NonBlank(names[1..]);
      calc {
        GenreNames(r.genres);
        GenreNames(next) + NonBlank(names[1..]);
        (GenreNames(attached) + [names[0]]) + NonBlank(names[1..]);
        GenreNames(attached) + ([names[0]] + NonBlank(names[1..]));
      }
    }
  }

  /** With `dedupe` on, names that are all stored and attached already change nothing. */
  lemma {:induction false} DedupedAttachOfPresentNames(names: seq<string>, attached: seq<Genre>, store: seq<Genre>)
    requires forall i :: 0 <= i < |names| && !IsBlank(names[i]) ==> Known(Attached(attached, store), names[i])
    ensures AttachGenres(names, attached, store, true) == Attached(attached, store)
    decreases |names|
  {
    if names != [] {
      forall i | 0 <= i < |names[1..]| && !IsBlank(names[1..][i])
        ensures Known(Attached(attached, store), names[1..][i])
      {
        assert names[1..][i] == names[i + 1];
      }
      DedupedAttachOfPresentNames(names[1..], attached, store);
    }
  }

  // ---------------------------------------------------------------- one import, as a value

  /** The overview, poster path and release date rules shared by both paths: blank text and the
      minimum date leave the field alone. */
  function ApplyMetadata(d: TitleData, movie: MovieDto): (r: TitleData)
    ensures && r.id == d.id && r.tmdbId == d.tmdbId && r.kind == d.kind && r.name == d.name
            && r.genres == d.genres && r.reviews == d.reviews
    ensures r.synopsis == if Present(movie.overview) then movie.overview else d.synopsis
    ensures r.posterUrl == if Present(movie.posterPath) then movie.posterPath else d.posterUrl
    ensures r.releaseDate == if movie.releaseDate.Some? && movie.releaseDate.value != MinValue
                             then movie.releaseDate.value else d.releaseDate
  {
    var d1 := if Present(movie.overview) then d.(synopsis := movie.overview) else d;
    var d2 := if Present(movie.posterPath) then d1.(posterUrl := movie.posterPath) else d1;
    if movie.releaseDate != Some(MinValue) && movie.releaseDate.Some? then d2.(releaseDate := movie.releaseDate.value)
    else d2
  }

  datatype Imported = Imported(title: TitleData, store: seq<Genre>)

  /** First import of a movie: a new title named after the movie ("Untitled" when it has no
      title), with one genre attached per non-blank genre name. */
  function ImportCreate(movie: MovieDto, newId: Guid, store: seq<Genre>): (r: Result<Imported, Error>)
    ensures r.Failure? <==> IsBlank(movie.title.GetOr("Untitled"))
    ensures r.Failure? ==> r.error == BlankArgument("title")
    ensures r.Success? ==> var t := r.value.title;
              && t.id == newId && t.tmdbId == movie.id && t.kind == Movie
              && t.name == movie.title.GetOr("Untitled") && t.reviews == []
              && t.synopsis == (if Present(movie.overview) then movie.overview else None)
              && t.posterUrl == (if Present(movie.posterPath) then movie.posterPath else None)
              && t.releaseDate == movie.releaseDate.GetOr(MinValue)
              && WellFormed(t)
              && GenreNames(t.genres) == NonBlank(movie.genres)
              && AddsOnlyNew(store, r.value.store, movie.genres) && NumberedFrom(r.value.store, |store|)
              && (UniqueNames(store) ==> UniqueNames(r.value.store))
  {
    var name := movie.title.GetOr("Untitled");
    if IsBlank(name) then Failure(BlankArgument("title"))
    else
      var filled := ApplyMetadata(InitialTitle(newId, movie.id, Movie, name), movie);
      var a := AttachGenres(movie.genres, [], store, false);
      PlainAttachNames(movie.genres, [], store);
      AttachKeepsStoreUnique(movie.genres, [], store, false);
      AttachStoresOnlyNew(movie.genres, [], store, false);
      assert GenreNames([]) + NonBlank(movie.genres) == NonBlank(movie.genres);
      Success(Imported(filled.(genres := a.genres), a.store))
  }

  /** Re-import into a stored title: rename only to a non-blank title, overwrite the metadata the
      movie has, and attach only the genres whose names are not attached yet. */
  function ImportMerge(existing: TitleData, movie: MovieDto, store: seq<Genre>): (r: Imported)
    ensures var t := r.title;
            && t.id == existing.id && t.tmdbId == existing.tmdbId && t.kind == existing.kind
            && t.reviews == existing.reviews
            && t.name == (if Present(movie.title) then movie.title.value else existing.name)
            && t.synopsis == (if Present(movie.overview) then movie.overview else existing.synopsis)
            && t.posterUrl == (if Present(movie.posterPath) then movie.posterPath else existing.posterUrl)
            && t.releaseDate == (if movie.releaseDate.Some? && movie.releaseDate.value != MinValue
                                 then movie.releaseDate.value else existing.releaseDate)
    ensures AddsOnlyNew(existing.genres, r.title.genres, movie.genres)
    ensures AddsOnlyNew(store, r.store, movie.genres) && NumberedFrom(r.store, |store|)
    ensures forall i :: 0 <= i < |movie.genres| && !IsBlank(movie.genres[i]) ==>
              Known(Attached(r.title.genres, r.store), movie.genres[i])
    ensures UniqueNames(existing.genres) ==> UniqueNames(r.title.genres)
    ensures UniqueNames(store) ==> UniqueNames(r.store)
    ensures WellFormed(existing) ==> WellFormed(r.title)
  {
    var renamed := if Present(movie.title) && existing.name != movie.title.value then existing.(name := movie.title.value)
                   else existing;
    var a := AttachGenres(movie.genres, existing.genres, store, true);
    AttachResolvesEveryName(movie.genres, existing.genres, store, true);
    AttachKeepsStoreUnique(movie.genres, existing.genres, store, true);
    AttachStoresOnlyNew(movie.genres, existing.genres, store, true);
    DedupedAttachAddsOnlyNew(movie.genres, existing.genres, store);
    AddsOnlyNewKeepsUnique(existing.genres, a.genres, movie.genres);
    Imported(ApplyMetadata(renamed, movie).(genres := a.genres), a.store)
  }

  /** Importing the same movie again changes nothing. */
  lemma MergeIsIdempotent(existing: TitleData, movie: MovieDto, store: seq<Genre>)
    ensures var once := ImportMerge(existing, movie, store);
            ImportMerge(once.title, movie, once.store) == once
  {
    var once := ImportMerge(existing, movie, store);
    DedupedAttachOfPresentNames(movie.genres, once.title.genres, once.store);
  }

  /** A first import followed by a second import of the same movie leaves what the first import
      produced: title, attached genres and store alike. */
  lemma CreateThenMergeChangesNothing(movie: MovieDto, newId: Guid, store: seq<Genre>)
    requires ImportCreate(movie, newId, store).Success?
    ensures var c := ImportCreate(movie, newId, store).value;
            ImportMerge(c.title, movie, c.store) == c
  {
    var c := ImportCreate(movie, newId, store).value;
    AttachResolvesEveryName(movie.genres, [], store, false);
    DedupedAttachOfPresentNames(movie.genres, c.title.genres, c.store);
  }

  /** A first import of a movie that lists "Drama" twice attaches the one stored Drama twice. */
  lemma CreateAttachesRepeatedName()
    ensures var r := ImportCreate(MovieDto(7, Some("Film"), None, None, None, ["Drama", "Drama"]), 1, []);
            && r.Success?
            && r.value.title.genres == [Genre(1, "Drama"), Genre(1, "Drama")]
            && r.value.store == [Genre(1, "Drama")]
  {
    var movie := MovieDto(7, Some("Film"), None, None, None, ["Drama", "Drama"]);
    assert !IsBlank("Film") by { assert !IsWhiteSpace("Film"[0]); }
    assert !IsBlank("Drama") by { assert !IsWhiteSpace("Drama"[0]); }
    var r1 := ResolveGenre([], "Drama");
    assert r1 == Resolved(Genre(1, "Drama"), [Genre(1, "Drama")]);
    var r2 := ResolveGenre([Genre(1, "Drama")], "Drama");
    assert r2 == Resolved(Genre(1, "Drama"), [Genre(1, "Drama")]);
    assert ["Drama", "Drama"][1..] == ["Drama"];
    assert ["Drama"][1..] == [];
  }

  // ---------------------------------------------------------------- the service method

  /** Both genre loops of the service; `dedupe` selects the re-import loop, which skips a name
      already attached to the title. */
  method AttachGenreNames(names: seq<string>, title: Title, genres: GenreStore, dedupe: bool)
    modifies title, genres
    ensures var a := AttachGenres(names, old(title.genres), old(genres.genres), dedupe);
            title.Data() == old(title.Data()).(genres := a.genres) && genres.genres == a.store
    ensures old(title.Valid()) ==> title.Valid()
    ensures old(genres.Valid()) ==> genres.Valid()
  {
    ghost var goal := AttachGenres(names, title.genres, genres.genres, dedupe);
    var i := 0;
    assert names[0..] == names;
    while i < |names|
      invariant 0 <= i <= |names|
      invariant AttachGenres(names[i..], title.genres, genres.genres, dedupe) == goal
      invariant title.Data() == old(title.Data()).(genres := title.genres)
    {
      var name := names[i];
      AttachStep(names, i, title.genres, genres.genres, dedupe);
      if !IsBlank(name) {
        ghost var res := ResolveGenre(genres.genres, name);
        var found := genres.GetByName(name);
        var g: Genre;
        if found.Some? {
          g := found.value;
        } else {
          g := genres.Add(NewGenre(name).value);
        }
        assert g == res.genre && genres.genres == res.store;
        if !dedupe || !HasGenreNamed(title.genres, g.name) {
          title.AddGenre(g);
        }
      }
      i := i + 1;
    }
    AttachKeepsStoreUnique(names, old(title.genres), old(genres.genres), dedupe);
    AttachStoresOnlyNew(names, old(title.genres), old(genres.genres), dedupe);
    if old(genres.Valid()) {
      NumberedJoin(old(genres.genres), genres.genres);
    }
  }

  /** The metadata updates of either path, on the title in place. */
  method ApplyMovieMetadata(m: MovieDto, title: Title)
    modifies title
    ensures title.Data() == ApplyMetadata(old(title.Data()), m)
    ensures old(title.Valid()) ==> title.Valid()
  {
    if Present(m.overview) {
      title.SetSynopsis(m.overview.value);
    }
    if Present(m.posterPath) {
      title.SetPoster(m.posterPath.value);
    }
    if m.releaseDate != Some(MinValue) {
      title.SetReleaseDate(m.releaseDate);
    }
  }

  /** The first-import branch: a new title is built, filled in and stored under `newId`. */
  method ImportNewTitle(m: MovieDto, titles: TitleStore, genres: GenreStore, newId: Guid) returns (o: Outcome<Error>)
    requires titles.Valid() && genres.Valid() && newId !in titles.titles && !HasTmdbId(titles.titles, m.id)
    modifies titles, genres
    ensures titles.Valid() && genres.Valid()
    ensures UniqueTmdbIds(old(titles.titles)) ==> UniqueTmdbIds(titles.titles)
    ensures match ImportCreate(m, newId, old(genres.genres))
            case Failure(e) =>
              o == Fail(e) && titles.titles == old(titles.titles) && genres.genres == old(genres.genres)
            case Success(c) =>
              o == Pass && titles.titles == old(titles.titles)[newId := c.title] && genres.genres == c.store
  {
    var created := Title.Create(newId, m.id, Movie, m.title.GetOr("Untitled"));
    if created.Failure? {
      return Fail(created.error);
    }
    var title := created.value;
    ApplyMovieMetadata(m, title);
    AttachGenreNames(m.genres, title, genres, false);
    assert title.Data() == ImportCreate(m, newId, old(genres.genres)).value.title;
    if UniqueTmdbIds(titles.titles) {
      UpsertKeepsTmdbIdsUnique(titles.titles, title.id, title.Data());
    }
    titles.Upsert(title);
    o := Pass;
  }

  /** The re-import branch: the loaded title is updated in place and stored again. */
  method ImportIntoTitle(m: MovieDto, existing: Title, titles: TitleStore, genres: GenreStore) returns (o: Outcome<Error>)
    requires titles.Valid() && genres.Valid() && existing.Valid()
    requires existing.id in titles.titles && existing.Data() == titles.titles[existing.id] && existing.tmdbId == m.id
    modifies existing, titles, genres
    ensures titles.Valid() && genres.Valid()
    ensures UniqueTmdbIds(old(titles.titles)) ==> UniqueTmdbIds(titles.titles)
    ensures var r := ImportMerge(old(titles.titles)[existing.id], m, old(genres.genres));
            o == Pass && titles.titles == old(titles.titles)[existing.id := r.title] && genres.genres == r.store
  {
    ghost var before := existing.Data();
    if Present(m.title) && existing.name != m.title.value {
      var _ := existing.Rename(m.title.value);
    }
    ApplyMovieMetadata(m, existing);
    AttachGenreNames(m.genres, existing, genres, true);
    assert existing.Data() == ImportMerge(before, m, old(genres.genres)).title;
    if UniqueTmdbIds(titles.titles) {
      UpsertKeepsTmdbIdsUnique(titles.titles, existing.id, existing.Data());
    }
    titles.Upsert(existing);
    o := Pass;
  }

  /** Imports one movie (None when the catalog has no such movie). The stores keep their
      invariants, and the catalog id stays unique when it was. */
  method ImportFromTMDb(movie: Option<MovieDto>, titles: TitleStore, genres: GenreStore, newId: Guid)
    returns (o: Outcome<Error>)
    requires titles.Valid() && genres.Valid() && newId !in titles.titles
    modifies titles, genres
    ensures titles.Valid() && genres.Valid()
    ensures UniqueTmdbIds(old(titles.titles)) ==> UniqueTmdbIds(titles.titles)
    ensures movie.None? ==>
              o == Fail(MovieNotFound) && titles.titles == old(titles.titles) && genres.genres == old(genres.genres)
    ensures movie.Some? && !HasTmdbId(old(titles.titles), movie.value.id) ==>
              match ImportCreate(movie.value, newId, old(genres.genres))
              case Failure(e) =>
                o == Fail(e) && titles.titles == old(titles.titles) && genres.genres == old(genres.genres)
              case Success(c) =>
                o == Pass && titles.titles == old(titles.titles)[newId := c.title] && genres.genres == c.store
    ensures movie.Some? && HasTmdbId(old(titles.titles), movie.value.id) ==>
              o == Pass &&
              exists k :: k in old(titles.titles) && old(titles.titles)[k].tmdbId == movie.value.id &&
                var m := ImportMerge(old(titles.titles)[k], movie.value, old(genres.genres));
                titles.titles == old(titles.titles)[k := m.title] && genres.genres == m.store
  {
    if movie.None? {
      return Fail(MovieNotFound);
    }
    var m := movie.value;
    var existing := titles.GetByTmdbId(m.id);
    if existing == null {
      o := ImportNewTitle(m, titles, genres, newId);
    } else {
      o := ImportIntoTitle(m, existing, titles, genres);
    }
  }
}
