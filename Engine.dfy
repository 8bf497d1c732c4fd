/** `RecommendationEngine` (src/utils/recommendationEngine.ts): an object
    holding the shared movie catalog and one user's ratings.  The catalog is
    the application's single `movies` array, held by reference; the
    cold-start path of the content-based strategy sorts it in place, and every
    later reader of the array sees that order. */
module Engine {
  import opened Types
  import opened StableSort
  import opened Scoring
  import opened Strategies

  /** The shared `movies` array. */
  class Catalog {
    var movies: seq<Movie>

    constructor(movies: seq<Movie>)
      ensures this.movies == movies
    {
      this.movies := movies;
    }
  }

  class RecommendationEngine {
    const catalog: Catalog
    const userRatings: seq<UserRating>

    constructor(catalog: Catalog, userRatings: seq<UserRating>)
      ensures this.catalog == catalog && this.userRatings == userRatings
    {
      this.catalog := catalog;
      this.userRatings := userRatings;
    }

    /** Scores and explains every unrated movie against the preference maps:
        the `.map(...)` of the content-based strategy. */
    method ScoreByContent(unrated: seq<Movie>, preferences: Preferences) returns (candidates: seq<Recommendation>)
      ensures candidates == ContentCandidates(unrated, preferences)
    {
      candidates := [];
      var i := 0;
      while i < |unrated|
        invariant 0 <= i <= |unrated|
        invariant candidates == ContentCandidates(unrated[..i], preferences)
      {
        var score := CalculateContentSimilarity(unrated[i], preferences);
        ContentCandidatesSnoc(unrated, preferences, i);
        candidates := candidates + [Recommendation(unrated[i], score, ContentReason(unrated[i], preferences))];
        i := i + 1;
      }
      assert unrated[..i] == unrated;
    }

    /** The `.map(...)` of the collaborative strategy. */
    method ScoreByGenres(unrated: seq<Movie>, genreScores: Assoc.Table) returns (candidates: seq<Recommendation>)
      ensures candidates == CollaborativeCandidates(unrated, genreScores)
    {
      candidates := [];
      var i := 0;
      while i < |unrated|
        invariant 0 <= i <= |unrated|
        invariant candidates == CollaborativeCandidates(unrated[..i], genreScores)
      {
        var score := CalculateCollaborativeScore(unrated[i], genreScores);
        CollaborativeCandidatesSnoc(unrated, genreScores, i);
        candidates := candidates + [Recommendation(unrated[i], score, CollaborativeReason(unrated[i], genreScores))];
        i := i + 1;
      }
      assert unrated[..i] == unrated;
    }

    /** `getContentBasedRecommendations(limit)`. */
    method GetContentBasedRecommendations(limit: nat) returns (recs: seq<Recommendation>)
      modifies catalog
      ensures recs == ContentBased(old(catalog.movies), userRatings, limit)
      ensures catalog.movies == CatalogAfterContent(old(catalog.movies), userRatings)
    {
      var ratedMovies := RatedMovies(catalog.movies, userRatings);
      if |ratedMovies| == 0 {
        recs := GetPopularMovies(limit);
        return;
      }
      var preferences := CalculateUserPreferences(ratedMovies);
      var unratedMovies := UnratedMovies(catalog.movies, userRatings);
      var candidates := ScoreByContent(unratedMovies, preferences);
      recs := Best(candidates, limit);
    }

    /** `getCollaborativeRecommendations(limit)`: it reads the catalog and
        changes nothing. */
    method GetCollaborativeRecommendations(limit: nat) returns (recs: seq<Recommendation>)
      ensures recs == Collaborative(catalog.movies, userRatings, limit)
    {
      var ratedMovies := RatedMovies(catalog.movies, userRatings);
      if |ratedMovies| == 0 {
        recs := Trending(catalog.movies, limit);
        return;
      }
      var genreScores := CalculateGenrePreferences(ratedMovies);
      var unratedMovies := UnratedMovies(catalog.movies, userRatings);
      var candidates := ScoreByGenres(unratedMovies, genreScores);
      recs := Best(candidates, limit);
    }

    /** `getHybridRecommendations(limit)`: both strategies at twice the limit,
        merged through a Map keyed by movie id, then ranked. */
    method GetHybridRecommendations(limit: nat) returns (recs: seq<Recommendation>)
      modifies catalog
      ensures recs == Hybrid(old(catalog.movies), userRatings, limit)
      ensures catalog.movies == CatalogAfterContent(old(catalog.movies), userRatings)
    {
      var contentRecs := GetContentBasedRecommendations(limit * 2);
      var collabRecs := GetCollaborativeRecommendations(limit * 2);
      var hybridMap := MergeRecommendations(contentRecs, collabRecs);
      recs := Best(hybridMap, limit);
    }

    /** `getPopularMovies(limit)`: sorts the shared catalog in place by
        descending rating, then takes the first `limit`. */
    method GetPopularMovies(limit: nat) returns (recs: seq<Recommendation>)
      modifies catalog
      ensures catalog.movies == Sort(old(catalog.movies), MovieRating)
      ensures recs == Popular(old(catalog.movies), limit)
    {
      catalog.movies := Sort(catalog.movies, MovieRating);
      recs := AsRecommendations(Take(catalog.movies, limit), "highly rated film");
    }
  }

  /** The two `forEach` passes of `getHybridRecommendations` over the
      id-keyed Map: content recommendations in at 60%, then collaborative
      ones folded in at 40%. */
  method MergeRecommendations(contentRecs: seq<Recommendation>, collabRecs: seq<Recommendation>)
    returns (hybridMap: seq<Recommendation>)
    ensures hybridMap == Merge(contentRecs, collabRecs)
  {
    hybridMap := [];
    var i := 0;
    while i < |contentRecs|
      invariant 0 <= i <= |contentRecs|
      invariant hybridMap == SeedContent(contentRecs[..i])
    {
      assert contentRecs[..i + 1][..i] == contentRecs[..i];
      hybridMap := Put(hybridMap, FromContent(contentRecs[i]));
      i := i + 1;
    }
    assert contentRecs[..i] == contentRecs;
    var seeded := hybridMap;
    var j := 0;
    while j < |collabRecs|
      invariant 0 <= j <= |collabRecs|
      invariant hybridMap == FoldCollaborative(seeded, collabRecs[..j])
    {
      assert collabRecs[..j + 1][..j] == collabRecs[..j];
      var rec := collabRecs[j];
      hybridMap := Put(hybridMap, FoldIn(Lookup(hybridMap, rec.movie.id), rec));
      j := j + 1;
    }
    assert collabRecs[..j] == collabRecs;
  }
}
