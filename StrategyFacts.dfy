/** What the three strategies promise: which movies they return, with which
    scores and reasons, in which order, and that a rated movie is never
    recommended again. */
module StrategyFacts {
  import opened Types
  import opened StableSort
  import opened Scoring
  import opened Strategies

  // ---------------------------------------------------------------------
  // Candidate lists
  // ---------------------------------------------------------------------

  /** The cold-start candidates: each movie scored by its own rating. */
  lemma AsRecommendationsMembers(movies: seq<Movie>, reason: string)
    ensures forall x :: x in AsRecommendations(movies, reason) <==>
              x.movie in movies && x.score == x.movie.rating && x.reason == reason
  {
    var r := AsRecommendations(movies, reason);
    forall x: Recommendation | x.movie in movies && x.score == x.movie.rating && x.reason == reason ensures x in r {
      var i :| 0 <= i < |movies| && movies[i] == x.movie;
      assert r[i] == x;
    }
  }

  lemma ContentCandidatesMembers(unrated: seq<Movie>, p: Preferences)
    ensures forall x :: x in ContentCandidates(unrated, p) <==>
              x.movie in unrated && x.score == ContentScore(x.movie, p) && x.reason == ContentReason(x.movie, p)
  {
    var r := ContentCandidates(unrated, p);
    forall x: Recommendation | x.movie in unrated && x.score == ContentScore(x.movie, p) && x.reason == ContentReason(x.movie, p)
      ensures x in r
    {
      var i :| 0 <= i < |unrated| && unrated[i] == x.movie;
      assert r[i] == x;
    }
  }

  lemma CollaborativeCandidatesMembers(unrated: seq<Movie>, t: Assoc.Table)
    ensures forall x :: x in CollaborativeCandidates(unrated, t) <==>
              x.movie in unrated && x.score == CollaborativeScore(x.movie, t)
              && x.reason == CollaborativeReason(x.movie, t)
  {
    var r := CollaborativeCandidates(unrated, t);
    forall x: Recommendation | x.movie in unrated && x.score == CollaborativeScore(x.movie, t) && x.reason == CollaborativeReason(x.movie, t)
      ensures x in r
    {
      var i :| 0 <= i < |unrated| && unrated[i] == x.movie;
      assert r[i] == x;
    }
  }

  /** A catalog with distinct ids gives candidates with distinct ids. */
  lemma CandidatesKeepDistinct(movies: seq<Movie>, reason: string, p: Preferences, t: Assoc.Table)
    requires DistinctBy(movies, MovieId)
    ensures DistinctBy(AsRecommendations(movies, reason), RecId)
    ensures DistinctBy(ContentCandidates(movies, p), RecId)
    ensures DistinctBy(CollaborativeCandidates(movies, t), RecId)
  {
  }

  /** The `limit` best candidates by score, ties in candidate order. */
  lemma BestSpec(candidates: seq<Recommendation>, limit: nat)
    ensures |Best(candidates, limit)| == if limit < |candidates| then limit else |candidates|
    ensures forall x :: x in Best(candidates, limit) ==> x in candidates
    ensures SortedDesc(Best(candidates, limit), Score)
    ensures forall k :: WithKey(Best(candidates, limit), Score, k) <= WithKey(candidates, Score, k)
    ensures forall x, y :: x in Best(candidates, limit) && y in candidates && y !in Best(candidates, limit)
              ==> y.score <= x.score
  {
    var r := Best(candidates, limit);
    TopN(candidates, Score, limit);
    forall x, y | x in r && y in candidates && y !in r ensures y.score <= x.score {
      assert Score(y) <= Score(x);
    }
  }

  // ---------------------------------------------------------------------
  // Cold start as a ranking of candidates
  // ---------------------------------------------------------------------

  lemma {:induction false} AsRecommendationsAppend(a: seq<Movie>, b: seq<Movie>, reason: string)
    ensures AsRecommendations(a + b, reason) == AsRecommendations(a, reason) + AsRecommendations(b, reason)
  {
    assert |AsRecommendations(a + b, reason)| == |a| + |b|;
    forall i | 0 <= i < |a| + |b|
      ensures AsRecommendations(a + b, reason)[i] == (AsRecommendations(a, reason) + AsRecommendations(b, reason))[i]
    {
      if i >= |a| {
        assert (a + b)[i] == b[i - |a|];
      }
    }
  }

  /** Turning movies into recommendations keeps each group of equal ratings. */
  lemma {:induction false} AsRecommendationsGroups(movies: seq<Movie>, reason: string, k: real)
    ensures WithKey(AsRecommendations(movies, reason), Score, k)
            == AsRecommendations(WithKey(movies, MovieRating, k), reason)
  {
    if movies != [] {
      var head := Recommendation(movies[0], movies[0].rating, reason);
      AsRecommendationsGroups(movies[1..], reason, k);
      assert movies == [movies[0]] + movies[1..];
      AsRecommendationsAppend([movies[0]], movies[1..], reason);
      assert AsRecommendations(movies, reason)[1..] == AsRecommendations(movies[1..], reason);
      AsRecommendationsAppend(if movies[0].rating == k then [movies[0]] else [],
                              WithKey(movies[1..], MovieRating, k), reason);
    }
  }

  /** Sorting movies by rating and then scoring them by rating is the same as
      scoring them and sorting by score. */
  lemma AsRecommendationsSort(movies: seq<Movie>, reason: string)
    ensures AsRecommendations(Sort(movies, MovieRating), reason) == Sort(AsRecommendations(movies, reason), Score)
  {
    var a := AsRecommendations(Sort(movies, MovieRating), reason);
    var b := Sort(AsRecommendations(movies, reason), Score);
    forall k ensures WithKey(a, Score, k) == WithKey(b, Score, k) {
      AsRecommendationsGroups(Sort(movies, MovieRating), reason, k);
      AsRecommendationsGroups(movies, reason, k);
    }
    assert SortedDesc(a, Score) by {
      assert forall i :: 0 <= i < |a| ==> a[i].score == Sort(movies, MovieRating)[i].rating;
    }
    SortIsUnique(a, b, Score);
  }

  /** `getPopularMovies` ranks the whole catalog by rating. */
  lemma PopularIsBest(movies: seq<Movie>, limit: nat)
    ensures Popular(movies, limit) == Best(AsRecommendations(movies, "highly rated film"), limit)
  {
    AsRecommendationsSort(movies, "highly rated film");
    var sorted := Sort(movies, MovieRating);
    assert AsRecommendations(Take(sorted, limit), "highly rated film")
        == Take(AsRecommendations(sorted, "highly rated film"), limit);
  }

  /** `getTrendingMovies` ranks the movies from 2010 on by rating. */
  lemma TrendingIsBest(movies: seq<Movie>, limit: nat)
    ensures Trending(movies, limit) == Best(AsRecommendations(Recent(movies), "trending now"), limit)
  {
    AsRecommendationsSort(Recent(movies), "trending now");
    var sorted := Sort(Recent(movies), MovieRating);
    assert AsRecommendations(Take(sorted, limit), "trending now")
        == Take(AsRecommendations(sorted, "trending now"), limit);
  }

  /** Filtering by year keeps each group of equal ratings, filtered. */
  lemma {:induction false} RecentGroups(movies: seq<Movie>, k: real)
    ensures WithKey(Recent(movies), MovieRating, k) == Recent(WithKey(movies, MovieRating, k))
  {
    if movies != [] {
      var m, tail := movies[0], movies[1..];
      RecentGroups(tail, k);
      var rest, group := Recent(tail), WithKey(tail, MovieRating, k);
      if m.year >= 2010 {
        assert Recent(movies) == [m] + rest;
        assert ([m] + rest)[1..] == rest;
      } else {
        assert Recent(movies) == rest;
      }
      if m.rating == k {
        assert WithKey(movies, MovieRating, k) == [m] + group;
        assert ([m] + group)[1..] == group;
      } else {
        assert WithKey(movies, MovieRating, k) == group;
      }
    }
  }

  /** Trending does not depend on how the catalog was sorted by rating
      before: the sort is stable, so ties come out the same either way. */
  lemma TrendingIgnoresSortedCatalog(movies: seq<Movie>, limit: nat)
    ensures Trending(Sort(movies, MovieRating), limit) == Trending(movies, limit)
  {
    var a := Sort(Recent(Sort(movies, MovieRating)), MovieRating);
    var b := Sort(Recent(movies), MovieRating);
    forall k ensures WithKey(a, MovieRating, k) == WithKey(b, MovieRating, k) {
      RecentGroups(Sort(movies, MovieRating), k);
      RecentGroups(movies, k);
    }
    SortIsUnique(a, b, MovieRating);
  }

  /** The user is cold exactly when no catalog movie's id is among the
      rated ids. */
  lemma ColdIff(movies: seq<Movie>, ratings: seq<UserRating>)
    ensures RatedMovies(movies, ratings) == [] <==> forall m :: m in movies ==> m.id !in RatedIds(ratings)
  {
    RatedMoviesEmpty(movies, ratings);
    if RatedMovies(movies, ratings) == [] {
      forall m | m in movies ensures m.id !in RatedIds(ratings) {
        var j :| 0 <= j < |movies| && movies[j] == m;
      }
    } else {
      var i, j :| 0 <= i < |ratings| && 0 <= j < |movies| && ratings[i].movieId == movies[j].id;
      assert movies[j].id in RatedIds(ratings);
    }
  }

  /** Sorting the catalog does not change whether the user is cold. */
  lemma ColdAfterSort(movies: seq<Movie>, ratings: seq<UserRating>)
    ensures RatedMovies(Sort(movies, MovieRating), ratings) == [] <==> RatedMovies(movies, ratings) == []
  {
    SortSameElements(movies, MovieRating);
    ColdIff(movies, ratings);
    ColdIff(Sort(movies, MovieRating), ratings);
  }

  // ---------------------------------------------------------------------
  // Content-based
  // ---------------------------------------------------------------------

  /** Cold start: the `limit` highest-rated catalog movies, scored by their
      rating, ties in catalog order. */
  lemma ContentBasedCold(movies: seq<Movie>, ratings: seq<UserRating>, limit: nat)
    requires RatedMovies(movies, ratings) == []
    ensures var r := ContentBased(movies, ratings, limit);
            var c := AsRecommendations(movies, "highly rated film");
            && |r| == (if limit < |movies| then limit else |movies|)
            && SortedDesc(r, Score)
            && (forall x :: x in r ==> x.movie in movies && x.score == x.movie.rating && x.reason == "highly rated film")
            && (forall x, y :: x in r && y in c && y !in r ==> y.score <= x.score)
            && (forall k :: WithKey(r, Score, k) <= WithKey(c, Score, k))
  {
    var c := AsRecommendations(movies, "highly rated film");
    PopularIsBest(movies, limit);
    AsRecommendationsMembers(movies, "highly rated film");
    BestSpec(c, limit);
  }

  /** With ratings: the `limit` unrated movies with the highest content
      scores, each with its score and reason, ties in catalog order. */
  lemma ContentBasedWarm(movies: seq<Movie>, ratings: seq<UserRating>, limit: nat)
    requires RatedMovies(movies, ratings) != []
    ensures var u := UnratedMovies(movies, ratings);
            var p := PreferencesOf(RatedMovies(movies, ratings));
            var r := ContentBased(movies, ratings, limit);
            && |r| == (if limit < |u| then limit else |u|)
            && SortedDesc(r, Score)
            && (forall x :: x in r ==> x.movie in u && x.score == ContentScore(x.movie, p)
                                       && x.reason == ContentReason(x.movie, p))
            && (forall x, y :: x in r && y in ContentCandidates(u, p) && y !in r ==> y.score <= x.score)
            && (forall k :: WithKey(r, Score, k) <= WithKey(ContentCandidates(u, p), Score, k))
  {
    var u := UnratedMovies(movies, ratings);
    var p := PreferencesOf(RatedMovies(movies, ratings));
    ContentCandidatesMembers(u, p);
    BestSpec(ContentCandidates(u, p), limit);
  }

  /** Never recommends a movie outside the catalog or one the user rated. */
  lemma ContentBasedExcludesRated(movies: seq<Movie>, ratings: seq<UserRating>, limit: nat)
    ensures forall x :: x in ContentBased(movies, ratings, limit) ==>
              x.movie in movies && x.movie.id !in RatedIds(ratings)
  {
    if RatedMovies(movies, ratings) == [] {
      ContentBasedCold(movies, ratings, limit);
      ColdIff(movies, ratings);
    } else {
      ContentBasedWarm(movies, ratings, limit);
    }
  }

  /** A catalog with distinct ids gives recommendations with distinct ids. */
  lemma ContentBasedDistinct(movies: seq<Movie>, ratings: seq<UserRating>, limit: nat)
    requires DistinctBy(movies, MovieId)
    ensures DistinctBy(ContentBased(movies, ratings, limit), RecId)
  {
    var rated := RatedMovies(movies, ratings);
    var u := UnratedMovies(movies, ratings);
    UnratedKeepsDistinct(movies, ratings);
    CandidatesKeepDistinct(movies, "highly rated film", PreferencesOf(rated), GenreScoresOf(rated));
    CandidatesKeepDistinct(u, "highly rated film", PreferencesOf(rated), GenreScoresOf(rated));
    if rated == [] {
      PopularIsBest(movies, limit);
      SortKeepsDistinct(AsRecommendations(movies, "highly rated film"), Score, RecId);
    } else {
      SortKeepsDistinct(ContentCandidates(u, PreferencesOf(rated)), Score, RecId);
    }
  }

  /** The catalog after the content-based call holds the same movies; on a
      cold start it is ordered by descending rating. */
  lemma CatalogAfterContentFacts(movies: seq<Movie>, ratings: seq<UserRating>)
    ensures multiset(CatalogAfterContent(movies, ratings)) == multiset(movies)
    ensures RatedMovies(movies, ratings) == [] ==> SortedDesc(CatalogAfterContent(movies, ratings), MovieRating)
    ensures RatedMovies(movies, ratings) != [] ==> CatalogAfterContent(movies, ratings) == movies
    ensures DistinctBy(movies, MovieId) ==> DistinctBy(CatalogAfterContent(movies, ratings), MovieId)
  {
    if DistinctBy(movies, MovieId) {
      SortKeepsDistinct(movies, MovieRating, MovieId);
    }
  }

  // ---------------------------------------------------------------------
  // Collaborative
  // ---------------------------------------------------------------------

  /** Cold start: the `limit` highest-rated movies from 2010 on, scored by
      their rating, ties in catalog order. */
  lemma CollaborativeCold(movies: seq<Movie>, ratings: seq<UserRating>, limit: nat)
    requires RatedMovies(movies, ratings) == []
    ensures var r := Collaborative(movies, ratings, limit);
            var c := AsRecommendations(Recent(movies), "trending now");
            && |r| == (if limit < |Recent(movies)| then limit else |Recent(movies)|)
            && SortedDesc(r, Score)
            && (forall x :: x in r ==> x.movie in movies && x.movie.year >= 2010
                                       && x.score == x.movie.rating && x.reason == "trending now")
            && (forall x, y :: x in r && y in c && y !in r ==> y.score <= x.score)
            && (forall k :: WithKey(r, Score, k) <= WithKey(c, Score, k))
  {
    var c := AsRecommendations(Recent(movies), "trending now");
    TrendingIsBest(movies, limit);
    AsRecommendationsMembers(Recent(movies), "trending now");
    BestSpec(c, limit);
  }

  /** With ratings: the `limit` unrated movies with the highest genre-affinity
      scores, each with its score and reason, ties in catalog order. */
  lemma CollaborativeWarm(movies: seq<Movie>, ratings: seq<UserRating>, limit: nat)
    requires RatedMovies(movies, ratings) != []
    ensures var u := UnratedMovies(movies, ratings);
            var t := GenreScoresOf(RatedMovies(movies, ratings));
            var r := Collaborative(movies, ratings, limit);
            && |r| == (if limit < |u| then limit else |u|)
            && SortedDesc(r, Score)
            && (forall x :: x in r ==> x.movie in u && x.score == CollaborativeScore(x.movie, t)
                                       && x.reason == CollaborativeReason(x.movie, t))
            && (forall x, y :: x in r && y in CollaborativeCandidates(u, t) && y !in r ==> y.score <= x.score)
            && (forall k :: WithKey(r, Score, k) <= WithKey(CollaborativeCandidates(u, t), Score, k))
  {
    var u := UnratedMovies(movies, ratings);
    var t := GenreScoresOf(RatedMovies(movies, ratings));
    CollaborativeCandidatesMembers(u, t);
    BestSpec(CollaborativeCandidates(u, t), limit);
  }

  lemma CollaborativeExcludesRated(movies: seq<Movie>, ratings: seq<UserRating>, limit: nat)
    ensures forall x :: x in Collaborative(movies, ratings, limit) ==>
              x.movie in movies && x.movie.id !in RatedIds(ratings)
  {
    if RatedMovies(movies, ratings) == [] {
      CollaborativeCold(movies, ratings, limit);
      ColdIff(movies, ratings);
    } else {
      CollaborativeWarm(movies, ratings, limit);
    }
  }

  lemma {:induction false} RecentKeepsDistinct(movies: seq<Movie>)
    requires DistinctBy(movies, MovieId)
    ensures DistinctBy(Recent(movies), MovieId)
  {
    if movies != [] {
      RecentKeepsDistinct(movies[1..]);
      forall y | y in Recent(movies[1..]) ensures y.id != movies[0].id {
        var j :| 0 <= j < |movies[1..]| && movies[1..][j] == y;
        assert movies[j + 1] == y;
      }
    }
  }

  lemma CollaborativeDistinct(movies: seq<Movie>, ratings: seq<UserRating>, limit: nat)
    requires DistinctBy(movies, MovieId)
    ensures DistinctBy(Collaborative(movies, ratings, limit), RecId)
  {
    var rated := RatedMovies(movies, ratings);
    var u := UnratedMovies(movies, ratings);
    UnratedKeepsDistinct(movies, ratings);
    RecentKeepsDistinct(movies);
    CandidatesKeepDistinct(Recent(movies), "trending now", PreferencesOf(rated), GenreScoresOf(rated));
    CandidatesKeepDistinct(u, "trending now", PreferencesOf(rated), GenreScoresOf(rated));
    if rated == [] {
      TrendingIsBest(movies, limit);
      SortKeepsDistinct(AsRecommendations(Recent(movies), "trending now"), Score, RecId);
    } else {
      SortKeepsDistinct(CollaborativeCandidates(u, GenreScoresOf(rated)), Score, RecId);
    }
  }

  /** The collaborative half of the hybrid strategy sees the catalog the
      content half may have sorted, and returns what it would have returned
      on the catalog as it was. */
  lemma CollaborativeAfterContent(movies: seq<Movie>, ratings: seq<UserRating>, limit: nat)
    ensures Collaborative(CatalogAfterContent(movies, ratings), ratings, limit)
            == Collaborative(movies, ratings, limit)
  {
    if RatedMovies(movies, ratings) == [] {
      ColdAfterSort(movies, ratings);
      TrendingIgnoresSortedCatalog(movies, limit);
    }
  }

  /** The content call leaves a catalog on which it changes nothing more. */
  lemma CatalogAfterContentIdempotent(movies: seq<Movie>, ratings: seq<UserRating>)
    ensures CatalogAfterContent(CatalogAfterContent(movies, ratings), ratings) == CatalogAfterContent(movies, ratings)
  {
    if RatedMovies(movies, ratings) == [] {
      ColdAfterSort(movies, ratings);
      SortIdempotent(movies, MovieRating);
    }
  }

  /** Asking the content strategy again, on the catalog its first run left
      behind, gives the same recommendations. */
  lemma ContentAfterContent(movies: seq<Movie>, ratings: seq<UserRating>, limit: nat)
    ensures ContentBased(CatalogAfterContent(movies, ratings), ratings, limit) == ContentBased(movies, ratings, limit)
  {
    if RatedMovies(movies, ratings) == [] {
      ColdAfterSort(movies, ratings);
      SortIdempotent(movies, MovieRating);
    }
  }
}
