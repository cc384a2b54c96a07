/** The storage collaborators, as in-memory stores: titles keyed by id (upsert replaces the whole
    stored title), genres in insertion order (looked up by exact name), users keyed by id. */
module Repositories {
  import opened Wrappers
  import opened Common
  import opened Entities

  ghost predicate HasTmdbId(titles: map<Guid, TitleData>, tmdbId: int) {
    exists k :: k in titles && titles[k].tmdbId == tmdbId
  }

  /** The external catalog id is the idempotency key of import: at most one title carries each. */
  ghost predicate UniqueTmdbIds(titles: map<Guid, TitleData>) {
    forall k1, k2 :: k1 in titles && k2 in titles && titles[k1].tmdbId == titles[k2].tmdbId ==> k1 == k2
  }

  /** Storing a title keeps the catalog ids unique when it replaces a title with the same catalog
      id, or when no stored title has its catalog id. */
  lemma UpsertKeepsTmdbIdsUnique(titles: map<Guid, TitleData>, key: Guid, t: TitleData)
    requires UniqueTmdbIds(titles)
    requires (key in titles && titles[key].tmdbId == t.tmdbId) || !HasTmdbId(titles, t.tmdbId)
    ensures UniqueTmdbIds(titles[key := t])
  {
  }

  class TitleStore {
    var titles: map<Guid, TitleData>

    /** Each title is stored under its own id and is well formed. */
    ghost predicate Valid()
      reads this
    {
      forall k :: k in titles ==> titles[k].id == k && WellFormed(titles[k])
    }

    constructor (initial: map<Guid, TitleData>)
      ensures titles == initial
    {
      titles := initial;
    }

    /** Loads the whole aggregate (genres and reviews included) as a fresh object, or null. */
    method GetById(id: Guid) returns (t: Title?)
      requires Valid()
      ensures t == null <==> id !in titles
      ensures t != null ==> fresh(t) && t.id == id && t.Data() == titles[id] && t.Valid()
    {
      if id !in titles {
        return null;
      }
      t := new Title.Load(titles[id]);
    }

    /** Loads some title with the given catalog id, or null when there is none. */
    method GetByTmdbId(tmdbId: int) returns (t: Title?)
      requires Valid()
      ensures t == null <==> !HasTmdbId(titles, tmdbId)
      ensures t != null ==> && fresh(t) && t.tmdbId == tmdbId && t.id in titles
                            && t.Data() == titles[t.id] && t.Valid()
    {
      if k :| k in titles && titles[k].tmdbId == tmdbId {
        t := new Title.Load(titles[k]);
      } else {
        t := null;
      }
    }

    /** Full replacement: whatever was stored under the title's id is discarded. */
    method Upsert(t: Title)
      modifies this
      ensures titles == old(titles)[t.id := t.Data()]
      ensures old(Valid()) && t.Valid() ==> Valid()
    {
      titles := titles[t.id := t.Data()];
    }
  }

  /** `FirstOrDefault(g => g.Name == name)`: the first genre with exactly that name. */
  function FindGenre(store: seq<Genre>, name: string): (r: Option<Genre>)
    ensures r.Some? ==> r.value in store && r.value.name == name
    ensures r.None? <==> forall i :: 0 <= i < |store| ==> store[i].name != name
    decreases |store|
  {
    if store == [] then None
    else if store[0].name == name then Some(store[0])
    else FindGenre(store[1..], name)
  }

  /** A lookup in a longer store answers from the first part when the name occurs there, and
      from the appended part otherwise. */
  lemma {:induction false} FindGenreAppend(store: seq<Genre>, more: seq<Genre>, name: string)
    ensures FindGenre(store + more, name) ==
            if FindGenre(store, name).Some? then FindGenre(store, name) else FindGenre(more, name)
    decreases |store|
  {
    if store == [] {
      assert store + more == more;
    } else if store[0].name != name {
      assert (store + more)[1..] == store[1..] + more;
      FindGenreAppend(store[1..], more, name);
    }
  }

  /** Genre names are unique across the store. */
  ghost predicate UniqueNames(gs: seq<Genre>) {
    forall i, j :: 0 <= i < j < |gs| ==> gs[i].name != gs[j].name
  }

  /** From position k on, every genre has the id the store gives a genre saved there. */
  ghost predicate NumberedFrom(gs: seq<Genre>, k: nat) {
    forall j :: k <= j < |gs| ==> gs[j].id == j + 1
  }

  class GenreStore {
    var genres: seq<Genre>

    /** Names are unique and each genre's id is its position plus one, the id `Add` assigns. */
    ghost predicate Valid()
      reads this
    {
      UniqueNames(genres) && NumberedFrom(genres, 0)
    }

    constructor (initial: seq<Genre>)
      ensures genres == initial
    {
      genres := initial;
    }

    method GetByName(name: string) returns (g: Option<Genre>)
      ensures g == FindGenre(genres, name)
    {
      g := FindGenre(genres, name);
    }

    /** Saves a genre; the store assigns its id (the next position) and returns the saved genre. */
    method Add(g: Genre) returns (saved: Genre)
      modifies this
      ensures saved == g.(id := |old(genres)| + 1)
      ensures genres == old(genres) + [saved]
    {
      saved := g.(id := |genres| + 1);
      genres := genres + [saved];
    }
  }

  class UserStore {
    var users: map<Guid, User>

    constructor (initial: map<Guid, User>)
      ensures users == initial
    {
      users := initial;
    }

    method GetById(id: Guid) returns (u: User?)
      ensures u == null <==> id !in users
      ensures u != null ==> u == users[id]
    {
      if id in users {
        u := users[id];
      } else {
        u := null;
      }
    }
  }
}

/** The "review created" event and the one-way publish capability, as a log of published events. */
module Events {
  import opened Common

  datatype ReviewCreatedEvent = ReviewCreatedEvent(reviewId: Guid, titleId: Guid, userId: Guid,
                                                   rating: int, createdAt: DateTime)

  class EventLog {
    var published: seq<ReviewCreatedEvent>

    constructor ()
      ensures published == []
    {
      published := [];
    }

    method Publish(e: ReviewCreatedEvent)
      modifies this
      ensures published == old(published) + [e]
    {
      published := published + [e];
    }
  }
}
