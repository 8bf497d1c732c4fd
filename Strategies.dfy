/** The three public strategies of `RecommendationEngine` and their cold-start
    fallbacks (src/utils/recommendationEngine.ts:13-89, 217-238), as functions
    of the catalog as it stands before the call, the rating list and `limit`.
    The engine's methods (module Engine) are proved to return these. */
module Strategies {
  import opened Types
  import opened Assoc
  import opened StableSort
  import opened Scoring

  /** `.sort((a, b) => b.score - a.score).slice(0, limit)`. */
  function Best(candidates: seq<Recommendation>, limit: nat): seq<Recommendation> {
    Take(Sort(candidates, Score), limit)
  }

  // ---------------------------------------------------------------------
  // Cold start
  // ---------------------------------------------------------------------

  /** `.map(movie => ({ movie, score: movie.rating, reason }))`. */
  function AsRecommendations(movies: seq<Movie>, reason: string): seq<Recommendation> {
    seq(|movies|, i requires 0 <= i < |movies| => Recommendation(movies[i], movies[i].rating, reason))
  }

  /** `getPopularMovies`, given the catalog before it sorts it. */
  function Popular(movies: seq<Movie>, limit: nat): (r: seq<Recommendation>)
    ensures |r| == if limit < |movies| then limit else |movies|
    ensures forall i :: 0 <= i < |r| ==>
              r[i].movie in movies && r[i].score == r[i].movie.rating && r[i].reason == "highly rated film"
  {
    var top := Take(Sort(movies, MovieRating), limit);
    assert forall i :: 0 <= i < |top| ==> top[i] in movies by {
      forall i | 0 <= i < |top| ensures top[i] in movies {
        assert top[i] in multiset(Sort(movies, MovieRating));
      }
    }
    AsRecommendations(top, "highly rated film")
  }

  /** `movies.filter(movie => movie.year >= 2010)`. */
  function Recent(movies: seq<Movie>): (r: seq<Movie>)
    ensures forall m :: m in r <==> m in movies && m.year >= 2010
  {
    if movies == [] then []
    else (if movies[0].year >= 2010 then [movies[0]] else []) + Recent(movies[1..])
  }

  /** The year filter works movie by movie: it keeps catalog order and
      multiplicity. */
  lemma {:induction false} RecentAppend(a: seq<Movie>, b: seq<Movie>)
    ensures Recent(a + b) == Recent(a) + Recent(b)
  {
    if a == [] {
      assert a + b == b;
    } else {
      assert (a + b)[0] == a[0];
      assert (a + b)[1..] == a[1..] + b;
      RecentAppend(a[1..], b);
    }
  }

  /** Each movie from 2010 on is kept as many times as the catalog lists it,
      and each older one is dropped every time. */
  lemma {:induction false} RecentCount(movies: seq<Movie>, m: Movie)
    ensures multiset(Recent(movies))[m] == if m.year >= 2010 then multiset(movies)[m] else 0
  {
    if movies != [] {
      RecentCount(movies[1..], m);
      assert movies == [movies[0]] + movies[1..];
    }
  }

  /** `getTrendingMovies`: it sorts the filtered copy, not the catalog. */
  function Trending(movies: seq<Movie>, limit: nat): (r: seq<Recommendation>)
    ensures |r| <= limit
    ensures forall i :: 0 <= i < |r| ==>
              && r[i].movie in movies && r[i].movie.year >= 2010
              && r[i].score == r[i].movie.rating && r[i].reason == "trending now"
  {
    var top := Take(Sort(Recent(movies), MovieRating), limit);
    assert forall i :: 0 <= i < |top| ==> top[i] in Recent(movies) by {
      forall i | 0 <= i < |top| ensures top[i] in Recent(movies) {
        assert top[i] in multiset(Sort(Recent(movies), MovieRating));
      }
    }
    AsRecommendations(top, "trending now")
  }

  // ---------------------------------------------------------------------
  // The strategies
  // ---------------------------------------------------------------------

  /** The `unratedMovies.map(...)` of the content-based strategy. */
  function ContentCandidates(unrated: seq<Movie>, p: Preferences): seq<Recommendation> {
    seq(|unrated|, i requires 0 <= i < |unrated| =>
      Recommendation(unrated[i], ContentScore(unrated[i], p), ContentReason(unrated[i], p)))
  }

  /** The `unratedMovies.map(...)` of the collaborative strategy. */
  function CollaborativeCandidates(unrated: seq<Movie>, genreScores: Table): seq<Recommendation> {
    seq(|unrated|, i requires 0 <= i < |unrated| =>
      Recommendation(unrated[i], CollaborativeScore(unrated[i], genreScores),
                     CollaborativeReason(unrated[i], genreScores)))
  }

  /** One more movie scored: the `.map` extends by that movie's entry. */
  lemma ContentCandidatesSnoc(unrated: seq<Movie>, p: Preferences, i: nat)
    requires i < |unrated|
    ensures ContentCandidates(unrated[..i + 1], p)
            == ContentCandidates(unrated[..i], p)
               + [Recommendation(unrated[i], ContentScore(unrated[i], p), ContentReason(unrated[i], p))]
  {
    var e := Recommendation(unrated[i], ContentScore(unrated[i], p), ContentReason(unrated[i], p));
    var longer, shorter := ContentCandidates(unrated[..i + 1], p), ContentCandidates(unrated[..i], p);
    forall j | 0 <= j <= i ensures longer[j] == (shorter + [e])[j] {
      assert unrated[..i + 1][j] == unrated[j];
      if j < i {
        assert unrated[..i][j] == unrated[j];
      }
    }
  }

  lemma CollaborativeCandidatesSnoc(unrated: seq<Movie>, t: Table, i: nat)
    requires i < |unrated|
    ensures CollaborativeCandidates(unrated[..i + 1], t)
            == CollaborativeCandidates(unrated[..i], t)
               + [Recommendation(unrated[i], CollaborativeScore(unrated[i], t), CollaborativeReason(unrated[i], t))]
  {
    var e := Recommendation(unrated[i], CollaborativeScore(unrated[i], t), CollaborativeReason(unrated[i], t));
    var longer, shorter := CollaborativeCandidates(unrated[..i + 1], t), CollaborativeCandidates(unrated[..i], t);
    forall j | 0 <= j <= i ensures longer[j] == (shorter + [e])[j] {
      assert unrated[..i + 1][j] == unrated[j];
      if j < i {
        assert unrated[..i][j] == unrated[j];
      }
    }
  }

  /** `getContentBasedRecommendations(limit)`. */
  function ContentBased(movies: seq<Movie>, ratings: seq<UserRating>, limit: nat): seq<Recommendation> {
    var rated := RatedMovies(movies, ratings);
    if rated == [] then Popular(movies, limit)
    else Best(ContentCandidates(UnratedMovies(movies, ratings), PreferencesOf(rated)), limit)
  }

  /** The catalog after `getContentBasedRecommendations`: the cold-start path
      sorts it in place by descending rating. */
  function CatalogAfterContent(movies: seq<Movie>, ratings: seq<UserRating>): seq<Movie> {
    if RatedMovies(movies, ratings) == [] then Sort(movies, MovieRating) else movies
  }

  /** `getCollaborativeRecommendations(limit)`; it leaves the catalog as it is. */
  function Collaborative(movies: seq<Movie>, ratings: seq<UserRating>, limit: nat): seq<Recommendation> {
    var rated := RatedMovies(movies, ratings);
    if rated == [] then Trending(movies, limit)
    else Best(CollaborativeCandidates(UnratedMovies(movies, ratings), GenreScoresOf(rated)), limit)
  }

  // ---------------------------------------------------------------------
  // Hybrid
  // ---------------------------------------------------------------------

  /** `hybridMap.get(id)`, the Map being a list of its values in insertion
      order keyed by movie id. */
  function Lookup(h: seq<Recommendation>, id: string): Option<Recommendation> {
    if h == [] then None
    else if h[0].movie.id == id then Some(h[0])
    else Lookup(h[1..], id)
  }

  /** `hybridMap.set(rec.movie.id, rec)`: replace in place, or append. */
  function Put(h: seq<Recommendation>, rec: Recommendation): (r: seq<Recommendation>)
    ensures |h| <= |r| <= |h| + 1
  {
    if h == [] then [rec]
    else if h[0].movie.id == rec.movie.id then [rec] + h[1..]
    else [h[0]] + Put(h[1..], rec)
  }

  /** What the first `forEach` stores for a content recommendation. */
  function FromContent(c: Recommendation): Recommendation {
    Recommendation(c.movie, c.score * 0.6, "Content match: " + c.reason)
  }

  /** What the second `forEach` stores for a collaborative recommendation:
      the existing entry with the weighted score added and the reason
      extended, or a fresh entry. */
  function FoldIn(existing: Option<Recommendation>, k: Recommendation): (r: Recommendation)
    ensures (existing.None? || existing.value.movie.id == k.movie.id) ==> r.movie.id == k.movie.id
    ensures |k.reason| <= |r.reason| && r.reason[|r.reason| - |k.reason|..] == k.reason
  {
    match existing
    case Some(e) => Recommendation(e.movie, e.score + k.score * 0.4, e.reason + " + " + k.reason)
    case None => Recommendation(k.movie, k.score * 0.4, "User pattern: " + k.reason)
  }

  /** The Map after the first `forEach` (lines 64-70). */
  function SeedContent(content: seq<Recommendation>): (r: seq<Recommendation>)
    ensures |r| <= |content|
  {
    if content == [] then []
    else
      var n := |content| - 1;
      Put(SeedContent(content[..n]), FromContent(content[n]))
  }

  /** The Map after the second `forEach` (lines 72-84), starting from `h`. */
  function FoldCollaborative(h: seq<Recommendation>, collab: seq<Recommendation>): (r: seq<Recommendation>)
    ensures |h| <= |r| <= |h| + |collab|
  {
    if collab == [] then h
    else
      var n := |collab| - 1;
      var prev := FoldCollaborative(h, collab[..n]);
      Put(prev, FoldIn(Lookup(prev, collab[n].movie.id), collab[n]))
  }

  /** `Array.from(hybridMap.values())`. */
  function Merge(content: seq<Recommendation>, collab: seq<Recommendation>): (r: seq<Recommendation>)
    ensures |r| <= |content| + |collab|
  {
    FoldCollaborative(SeedContent(content), collab)
  }

  /** `getHybridRecommendations(limit)`.  The content call may sort the shared
      catalog before the collaborative call reads it. */
  function Hybrid(movies: seq<Movie>, ratings: seq<UserRating>, limit: nat): seq<Recommendation> {
    var content := ContentBased(movies, ratings, limit * 2);
    var collab := Collaborative(CatalogAfterContent(movies, ratings), ratings, limit * 2);
    Best(Merge(content, collab), limit)
  }

  /** The merged entry for an id, from its content and collaborative entries:
      `0.6 c + 0.4 k` with both reasons, `0.6 c` or `0.4 k` with one. */
  function Blend(c: Option<Recommendation>, k: Option<Recommendation>): Option<Recommendation> {
    match (c, k)
    case (Some(x), Some(y)) =>
      Some(Recommendation(x.movie, 0.6 * x.score + 0.4 * y.score,
                          "Content match: " + x.reason + " + " + y.reason))
    case (Some(x), None) => Some(Recommendation(x.movie, 0.6 * x.score, "Content match: " + x.reason))
    case (None, Some(y)) => Some(Recommendation(y.movie, 0.4 * y.score, "User pattern: " + y.reason))
    case (None, None) => None
  }
}
