/** RecommendationService: ranking of candidate titles, by average rating descending then name
    ascending, optionally preceded by a 0/1 genre-match score, and cut to the first topN.
    The LINQ pipeline's stable OrderBy/ThenBy is modelled by a stable insertion sort. */
module RecommendationService {
  import opened Wrappers
  import opened Common
  import opened Entities

  // ---------------------------------------------------------------- names

  /** Ordinal string order: a may precede b; a prefix precedes every extension of it. */
  predicate NameLe(a: string, b: string): (le: bool)
    ensures a <= b ==> le
    decreases |a|
  {
    a == [] || (b != [] && (a[0] < b[0] || (a[0] == b[0] && NameLe(a[1..], b[1..]))))
  }

  lemma {:induction false} NameLeTotal(a: string, b: string)
    ensures NameLe(a, b) || NameLe(b, a)
    decreases |a|
  {
    if a != [] && b != [] && a[0] == b[0] {
      NameLeTotal(a[1..], b[1..]);
    }
  }

  lemma {:induction false} NameLeTransitive(a: string, b: string, c: string)
    requires NameLe(a, b) && NameLe(b, c)
    ensures NameLe(a, c)
    decreases |a|
  {
    if a != [] && a[0] == b[0] && b[0] == c[0] {
      NameLeTransitive(a[1..], b[1..], c[1..]);
    }
  }

  // ---------------------------------------------------------------- ranking keys

  /** What a candidate is ordered by: score, then average (sum / count), then name. */
  datatype Key = Key(score: int, sum: int, count: Pos, name: string)

  /** 1 when some genre of the title is in the preferred set, else 0; no preferences score 0. */
  function Score(t: TitleData, preferred: Option<set<int>>): (s: int)
    ensures s == 0 || s == 1
    ensures s == 1 <==> preferred.Some? && exists g :: g in t.genres && g.id in preferred.value
  {
    if preferred.Some? && exists g :: g in t.genres && g.id in preferred.value then 1 else 0
  }

  /** The key of a title: its score, its name, and its mean rating as `sum / count`. */
  function KeyOf(t: TitleData, preferred: Option<set<int>>): (k: Key)
    ensures k.score == Score(t, preferred) && k.name == t.name
    ensures |t.reviews| == 0 ==> k.sum == 0
    ensures |t.reviews| > 0 ==> k.sum * |t.reviews| == SumRatings(t.reviews) * k.count
    ensures AllRatingsValid(t.reviews) && |t.reviews| > 0 ==> k.count <= k.sum <= 10 * k.count
  {
    var m := MeanRating(t.reviews);
    Key(Score(t, preferred), m.num, m.den, t.name)
  }

  /** a's average is strictly above b's (cross-multiplied, both counts positive). */
  predicate AvgAbove(a: Key, b: Key) {
    a.sum * b.count > b.sum * a.count
  }

  predicate AvgSame(a: Key, b: Key) {
    a.sum * b.count == b.sum * a.count
  }

  /** a may be listed before b: score descending, then average descending, then name ascending. */
  predicate KeyLe(a: Key, b: Key): (le: bool)
    ensures a == b ==> le
  {
    a.score > b.score
    || (a.score == b.score && (AvgAbove(a, b) || (AvgSame(a, b) && NameLe(a.name, b.name))))
  }

  lemma KeyLeTotal(a: Key, b: Key)
    ensures KeyLe(a, b) || KeyLe(b, a)
  {
    NameLeTotal(a.name, b.name);
  }

  lemma AvgTransitive(a: Key, b: Key, c: Key)
    ensures a.sum * b.count >= b.sum * a.count && b.sum * c.count >= c.sum * b.count ==>
            a.sum * c.count >= c.sum * a.count
    ensures a.sum * b.count >= b.sum * a.count && b.sum * c.count >= c.sum * b.count ==>
            (a.sum * c.count == c.sum * a.count <==> AvgSame(a, b) && AvgSame(b, c))
  {
    if a.sum * b.count >= b.sum * a.count && b.sum * c.count >= c.sum * b.count {
      var x, y := a.sum * b.count - b.sum * a.count, b.sum * c.count - c.sum * b.count;
      assert b.count * (a.sum * c.count - c.sum * a.count) == x * c.count + y * a.count;
      assert x * c.count >= 0 && y * a.count >= 0;
      MulPositive(b.count, a.sum * c.count - c.sum * a.count);
      MulPositive(c.count, x);
      MulPositive(a.count, y);
    }
  }

  lemma MulPositive(p: Pos, z: int)
    ensures p * z >= 0 <==> z >= 0
    ensures p * z == 0 <==> z == 0
  {
  }

  lemma KeyLeTransitive(a: Key, b: Key, c: Key)
    requires KeyLe(a, b) && KeyLe(b, c)
    ensures KeyLe(a, c)
  {
    AvgTransitive(a, b, c);
    if a.score == b.score == c.score && AvgSame(a, b) && AvgSame(b, c) {
      NameLeTransitive(a.name, b.name, c.name);
    }
  }

  // ---------------------------------------------------------------- sorting

  /** Candidate i may be listed before candidate j for every i < j. */
  ghost predicate Ranked(s: seq<TitleData>, preferred: Option<set<int>>) {
    forall i, j :: 0 <= i < j < |s| ==> KeyLe(KeyOf(s[i], preferred), KeyOf(s[j], preferred))
  }

  /** Places t before the first element it may precede. */
  function Insert(t: TitleData, s: seq<TitleData>, preferred: Option<set<int>>): (r: seq<TitleData>)
    ensures |r| == |s| + 1
    ensures multiset(r) == multiset(s) + multiset{t}
    decreases |s|
  {
    if s == [] then [t]
    else if KeyLe(KeyOf(t, preferred), KeyOf(s[0], preferred)) then [t] + s
    else
      assert s == [s[0]] + s[1..];
      [s[0]] + Insert(t, s[1..], preferred)
  }

  /** The full ranking of the candidates (stable: equal keys keep their input order). */
  function Rank(candidates: seq<TitleData>, preferred: Option<set<int>>): (r: seq<TitleData>)
    ensures |r| == |candidates|
    ensures multiset(r) == multiset(candidates)
    decreases |candidates|
  {
    if candidates == [] then []
    else
      assert candidates == [candidates[0]] + candidates[1..];
      Insert(candidates[0], Rank(candidates[1..], preferred), preferred)
  }

  /** A key that may be listed before every element of s. */
  ghost predicate Precedes(k: Key, s: seq<TitleData>, preferred: Option<set<int>>) {
    forall i :: 0 <= i < |s| ==> KeyLe(k, KeyOf(s[i], preferred))
  }

  /** A key that may precede every element of a list and the inserted one may precede every
      element of the result, since insertion brings in no other element. */
  lemma InsertPrecedes(k: Key, t: TitleData, s: seq<TitleData>, preferred: Option<set<int>>)
    requires Precedes(k, s, preferred) && KeyLe(k, KeyOf(t, preferred))
    ensures Precedes(k, Insert(t, s, preferred), preferred)
  {
    var r := Insert(t, s, preferred);
    forall i | 0 <= i < |r| ensures KeyLe(k, KeyOf(r[i], preferred)) {
      assert r[i] in multiset(r);
      if r[i] != t {
        assert r[i] in multiset(s);
        var j :| 0 <= j < |s| && s[j] == r[i];
      }
    }
  }

  /** An element that may precede all of a ranked list can be put in front of it. */
  lemma ConsRanked(x: TitleData, s: seq<TitleData>, preferred: Option<set<int>>)
    requires Ranked(s, preferred) && Precedes(KeyOf(x, preferred), s, preferred)
    ensures Ranked([x] + s, preferred)
  {
    var r := [x] + s;
    forall i, j | 0 <= i < j < |r| ensures KeyLe(KeyOf(r[i], preferred), KeyOf(r[j], preferred)) {
      if i == 0 {
        assert r[j] == s[j - 1];
      } else {
        assert r[i] == s[i - 1] && r[j] == s[j - 1];
      }
    }
  }

  /** The tail of a ranked list is ranked and comes after its head. */
  lemma RankedTail(s: seq<TitleData>, preferred: Option<set<int>>)
    requires Ranked(s, preferred) && s != []
    ensures Ranked(s[1..], preferred) && Precedes(KeyOf(s[0], preferred), s[1..], preferred)
  {
    var rest := s[1..];
    forall i, j | 0 <= i < j < |rest| ensures KeyLe(KeyOf(rest[i], preferred), KeyOf(rest[j], preferred)) {
      assert rest[i] == s[i + 1] && rest[j] == s[j + 1];
    }
    forall i | 0 <= i < |rest| ensures KeyLe(KeyOf(s[0], preferred), KeyOf(rest[i], preferred)) {
      assert rest[i] == s[i + 1];
    }
  }

  /** Inserting into a ranked list gives a ranked list. */
  lemma {:induction false} InsertRanked(t: TitleData, s: seq<TitleData>, preferred: Option<set<int>>)
    requires Ranked(s, preferred)
    ensures Ranked(Insert(t, s, preferred), preferred)
    decreases |s|
  {
    var k := KeyOf(t, preferred);
    if s == [] {
    } else if KeyLe(k, KeyOf(s[0], preferred)) {
      forall i | 0 <= i < |s| ensures KeyLe(k, KeyOf(s[i], preferred)) {
        if i > 0 {
          KeyLeTransitive(k, KeyOf(s[0], preferred), KeyOf(s[i], preferred));
        }
      }
      ConsRanked(t, s, preferred);
    } else {
      KeyLeTotal(k, KeyOf(s[0], preferred));
      RankedTail(s, preferred);
      InsertRanked(t, s[1..], preferred);
      InsertPrecedes(KeyOf(s[0], preferred), t, s[1..], preferred);
      ConsRanked(s[0], Insert(t, s[1..], preferred), preferred);
    }
  }

  /** The full ranking is ordered and is a permutation of the candidates. */
  lemma {:induction false} RankIsSortedPermutation(candidates: seq<TitleData>, preferred: Option<set<int>>)
    ensures Ranked(Rank(candidates, preferred), preferred)
    ensures multiset(Rank(candidates, preferred)) == multiset(candidates)
    decreases |candidates|
  {
    if candidates != [] {
      RankIsSortedPermutation(candidates[1..], preferred);
      InsertRanked(candidates[0], Rank(candidates[1..], preferred), preferred);
    }
  }

  /** `Take(topN)`: nothing when topN <= 0, otherwise at most topN elements. */
  function Take(s: seq<TitleData>, topN: int): (r: seq<TitleData>)
    ensures |r| == (if topN <= 0 then 0 else if topN < |s| then topN else |s|)
    ensures r == s[..|r|]
  {
    if topN <= 0 then [] else if topN < |s| then s[..topN] else s
  }

  lemma PrefixMultiset(s: seq<TitleData>, k: nat)
    requires k <= |s|
    ensures multiset(s[..k]) <= multiset(s)
    ensures multiset(s) - multiset(s[..k]) == multiset(s[k..])
  {
    assert s == s[..k] + s[k..];
  }

  // ---------------------------------------------------------------- the service

  /** The preferred genre ids of a profile (`new HashSet<int>(GenrePreferences.Select(g => g.GenreId))`). */
  function PreferredIds(prefs: seq<GenrePreference>): (ids: set<int>)
    ensures forall id :: id in ids <==> exists p :: p in prefs && p.genreId == id
  {
    set p | p in prefs :: p.genreId
  }

  /** Top topN candidates by average rating descending (0 without reviews), then name ascending. */
  function RecommendByAverageRating(candidates: seq<TitleData>, topN: int): (r: seq<TitleData>)
    ensures |r| == (if topN <= 0 then 0 else if topN < |candidates| then topN else |candidates|)
    ensures multiset(r) <= multiset(candidates)
    ensures Ranked(r, None)
    ensures r == Rank(candidates, None)[..|r|]
  {
    RankIsSortedPermutation(candidates, None);
    var ranked := Rank(candidates, None);
    var r := Take(ranked, topN);
    PrefixMultiset(ranked, |r|);
    r
  }

  /** Like RecommendByAverageRating, but titles sharing a genre id with the profile's preferences
      come first; without a profile it is exactly RecommendByAverageRating. */
  function RecommendByProfile(candidates: seq<TitleData>, profile: Profile?, topN: int): (r: seq<TitleData>)
    reads if profile == null then {} else {profile}
    ensures profile == null ==> r == RecommendByAverageRating(candidates, topN)
    ensures |r| == (if topN <= 0 then 0 else if topN < |candidates| then topN else |candidates|)
    ensures multiset(r) <= multiset(candidates)
    ensures profile != null ==> Ranked(r, Some(PreferredIds(profile.genrePreferences)))
    ensures profile != null ==> r == Rank(candidates, Some(PreferredIds(profile.genrePreferences)))[..|r|]
  {
    if profile == null then RecommendByAverageRating(candidates, topN)
    else
      var preferred := Some(PreferredIds(profile.genrePreferences));
      RankIsSortedPermutation(candidates, preferred);
      var ranked := Rank(candidates, preferred);
      var r := Take(ranked, topN);
      PrefixMultiset(ranked, |r|);
      r
  }

  // ---------------------------------------------------------------- properties

  /** In a ranked list, everything in a prefix may precede everything after it. */
  lemma PrefixPrecedesSuffix(s: seq<TitleData>, preferred: Option<set<int>>, k: nat, x: TitleData, y: TitleData)
    requires Ranked(s, preferred) && k <= |s| && x in s[..k] && y in s[k..]
    ensures KeyLe(KeyOf(x, preferred), KeyOf(y, preferred))
  {
    var i :| 0 <= i < k && s[..k][i] == x;
    var j :| 0 <= j < |s| - k && s[k..][j] == y;
    assert s[i] == x && s[k + j] == y;
  }

  /** No candidate left out of the result outranks one that was returned. */
  lemma OmittedDoNotOutrank(candidates: seq<TitleData>, preferred: Option<set<int>>,
                            topN: int, x: TitleData, y: TitleData)
    requires var r := Take(Rank(candidates, preferred), topN);
             x in r && y in multiset(candidates) - multiset(r)
    ensures KeyLe(KeyOf(x, preferred), KeyOf(y, preferred))
  {
    var ranked := Rank(candidates, preferred);
    RankIsSortedPermutation(candidates, preferred);
    var k := |Take(ranked, topN)|;
    PrefixMultiset(ranked, k);
    assert y in multiset(ranked[k..]);
    PrefixPrecedesSuffix(ranked, preferred, k, x, y);
  }

  /** Within the result, a title of equal score and equal average comes in ascending name order,
      and a higher average always comes first. */
  lemma RankedOrder(s: seq<TitleData>, preferred: Option<set<int>>, i: int, j: int)
    requires Ranked(s, preferred) && 0 <= i < j < |s|
    ensures Score(s[i], preferred) >= Score(s[j], preferred)
    ensures Score(s[i], preferred) == Score(s[j], preferred) ==>
              MeanRating(s[i].reviews).num * MeanRating(s[j].reviews).den
              >= MeanRating(s[j].reviews).num * MeanRating(s[i].reviews).den
    ensures Score(s[i], preferred) == Score(s[j], preferred) && AvgSame(KeyOf(s[i], preferred), KeyOf(s[j], preferred)) ==>
              NameLe(s[i].name, s[j].name)
  {
    assert KeyLe(KeyOf(s[i], preferred), KeyOf(s[j], preferred));
  }

  /** With a profile, every candidate sharing a preferred genre is ranked before every candidate
      that does not. */
  lemma PreferredGenresComeFirst(candidates: seq<TitleData>, profile: Profile, i: int, j: int)
    requires var ranked := Rank(candidates, Some(PreferredIds(profile.genrePreferences)));
             0 <= i < |ranked| && 0 <= j < |ranked|
    requires var preferred := Some(PreferredIds(profile.genrePreferences));
             var ranked := Rank(candidates, preferred);
             Score(ranked[i], preferred) == 1 && Score(ranked[j], preferred) == 0
    ensures i < j
  {
    var preferred := Some(PreferredIds(profile.genrePreferences));
    var ranked := Rank(candidates, preferred);
    RankIsSortedPermutation(candidates, preferred);
    if j < i {
      RankedOrder(ranked, preferred, j, i);
    }
  }

  /** If a candidate sharing a preferred genre was left out, every returned title shares one. */
  lemma OmittedMatchImpliesAllMatch(candidates: seq<TitleData>, profile: Profile, topN: int, y: TitleData)
    requires var r := RecommendByProfile(candidates, profile, topN);
             y in multiset(candidates) - multiset(r)
    requires Score(y, Some(PreferredIds(profile.genrePreferences))) == 1
    ensures forall x :: x in RecommendByProfile(candidates, profile, topN) ==>
              Score(x, Some(PreferredIds(profile.genrePreferences))) == 1
  {
    var preferred := Some(PreferredIds(profile.genrePreferences));
    var r := RecommendByProfile(candidates, profile, topN);
    assert r == Take(Rank(candidates, preferred), topN);
    forall x | x in r ensures Score(x, preferred) == 1 {
      OmittedDoNotOutrank(candidates, preferred, topN, x, y);
    }
  }
}
