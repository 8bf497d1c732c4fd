/** `useRecommendations` (src/hooks/useRecommendations.ts): the React hook
    that owns the user's rating list and the active tab, rebuilds the engine
    over the shared catalog whenever the ratings change, and asks it for
    twelve recommendations from the strategy the tab names.  React state is
    modelled as fields of an object; `Date.now()` is a parameter. */
module RatingsHook {
  import opened Types
  import opened StableSort
  import opened Scoring
  import opened Strategies
  import opened StrategyFacts
  import opened HybridFacts
  import opened Engine

  /** The three tabs of the recommendation panel. */
  datatype Tab = ContentTab | CollaborativeTab | HybridTab

  /** Every tab asks for this many recommendations. */
  const RecommendationLimit: nat := 12

  function RatingMovieId(r: UserRating): string { r.movieId }

  // ---------------------------------------------------------------------
  // The rating list
  // ---------------------------------------------------------------------

  /** `userRatings.filter(r => r.movieId !== movieId)`. */
  function WithoutMovie(ratings: seq<UserRating>, movieId: string): seq<UserRating> {
    if ratings == [] then []
    else (if ratings[0].movieId != movieId then [ratings[0]] else []) + WithoutMovie(ratings[1..], movieId)
  }

  /** The filter keeps exactly the entries for other movies. */
  lemma {:induction false} WithoutMovieMembers(ratings: seq<UserRating>, movieId: string)
    ensures forall x :: x in WithoutMovie(ratings, movieId) <==> x in ratings && x.movieId != movieId
  {
    if ratings != [] {
      WithoutMovieMembers(ratings[1..], movieId);
      assert ratings == [ratings[0]] + ratings[1..];
    }
  }

  /** The rating list after `addRating(movieId, rating)` at time `now`: any
      earlier rating of the movie dropped, the new one appended. */
  function AfterAddRating(ratings: seq<UserRating>, movieId: string, rating: real, now: int): seq<UserRating> {
    WithoutMovie(ratings, movieId) + [UserRating(movieId, rating, now)]
  }

  /** `getRating(movieId)`: the rating of the first entry for the movie, or
      null. */
  function RatingOf(ratings: seq<UserRating>, movieId: string): (r: Option<real>)
    ensures r.None? <==> movieId !in RatedIds(ratings)
    ensures r.Some? ==> exists i :: 0 <= i < |ratings| && ratings[i].movieId == movieId && ratings[i].rating == r.value
  {
    if ratings == [] then None
    else if ratings[0].movieId == movieId then Some(ratings[0].rating)
    else
      var r := RatingOf(ratings[1..], movieId);
      assert forall i :: 1 <= i < |ratings| ==> ratings[i] == ratings[1..][i - 1];
      assert RatedIds(ratings) == {ratings[0].movieId} + RatedIds(ratings[1..]);
      r
  }

  /** No movie is rated twice. */
  ghost predicate OnePerMovie(ratings: seq<UserRating>) {
    DistinctBy(ratings, RatingMovieId)
  }

  lemma {:induction false} WithoutMovieKeepsOnePerMovie(ratings: seq<UserRating>, movieId: string)
    requires OnePerMovie(ratings)
    ensures OnePerMovie(WithoutMovie(ratings, movieId))
  {
    if ratings != [] {
      WithoutMovieKeepsOnePerMovie(ratings[1..], movieId);
      WithoutMovieMembers(ratings[1..], movieId);
      forall y | y in WithoutMovie(ratings[1..], movieId) ensures y.movieId != ratings[0].movieId {
        var j :| 0 <= j < |ratings[1..]| && ratings[1..][j] == y;
        assert ratings[j + 1] == y;
      }
    }
  }

  /** After `addRating`, the movie has exactly one entry, the new one, at the
      end; the list still rates no movie twice if it did not before; and the
      rated ids gain the movie and lose nothing. */
  lemma AddRatingSpec(ratings: seq<UserRating>, movieId: string, rating: real, now: int)
    ensures var after := AfterAddRating(ratings, movieId, rating, now);
            && after[|after| - 1] == UserRating(movieId, rating, now)
            && (forall i :: 0 <= i < |after| - 1 ==> after[i].movieId != movieId)
            && RatingOf(after, movieId) == Some(rating)
            && RatedIds(after) == RatedIds(ratings) + {movieId}
            && (OnePerMovie(ratings) ==> OnePerMovie(after))
  {
    var rest := WithoutMovie(ratings, movieId);
    var after := AfterAddRating(ratings, movieId, rating, now);
    WithoutMovieMembers(ratings, movieId);
    assert forall i :: 0 <= i < |rest| ==> after[i] == rest[i] && rest[i] in rest;
    RatingOfFirst(after, |after| - 1, movieId);
    forall id ensures id in RatedIds(after) <==> id in RatedIds(ratings) + {movieId} {
      if id in RatedIds(ratings) && id != movieId {
        var i :| 0 <= i < |ratings| && ratings[i].movieId == id;
        assert ratings[i] in rest;
        var j :| 0 <= j < |rest| && rest[j] == ratings[i];
        assert after[j].movieId == id;
      }
      if id in RatedIds(after) {
        var i :| 0 <= i < |after| && after[i].movieId == id;
        if i < |rest| {
          assert rest[i] in ratings;
        }
      }
    }
    if OnePerMovie(ratings) {
      WithoutMovieKeepsOnePerMovie(ratings, movieId);
    }
  }

  /** `find` returns the entry at `i` when no earlier entry names the movie. */
  lemma {:induction false} RatingOfFirst(ratings: seq<UserRating>, i: nat, movieId: string)
    requires i < |ratings| && ratings[i].movieId == movieId
    requires forall j :: 0 <= j < i ==> ratings[j].movieId != movieId
    ensures RatingOf(ratings, movieId) == Some(ratings[i].rating)
  {
    if i > 0 {
      RatingOfFirst(ratings[1..], i - 1, movieId);
    }
  }

  /** `addRating` leaves every other movie's rating as it was. */
  lemma {:induction false} AddRatingKeepsOthers(ratings: seq<UserRating>, movieId: string, rating: real, now: int, other: string)
    requires other != movieId
    ensures RatingOf(AfterAddRating(ratings, movieId, rating, now), other) == RatingOf(ratings, other)
  {
    if ratings != [] {
      var tail := AfterAddRating(ratings[1..], movieId, rating, now);
      AddRatingKeepsOthers(ratings[1..], movieId, rating, now, other);
      if ratings[0].movieId != movieId {
        assert AfterAddRating(ratings, movieId, rating, now) == [ratings[0]] + tail;
        assert ([ratings[0]] + tail)[1..] == tail;
      } else {
        assert AfterAddRating(ratings, movieId, rating, now) == tail;
      }
    }
  }

  /** `addRating` keeps the other entries in their order: dropping the
      movie again gives the list without it. */
  lemma AddRatingKeepsOrder(ratings: seq<UserRating>, movieId: string, rating: real, now: int)
    ensures WithoutMovie(AfterAddRating(ratings, movieId, rating, now), movieId) == WithoutMovie(ratings, movieId)
  {
    var rest := WithoutMovie(ratings, movieId);
    WithoutMovieAppend(rest, UserRating(movieId, rating, now), movieId);
    WithoutMovieIdempotent(ratings, movieId);
  }

  /** Rating a movie again replaces the earlier rating. */
  lemma ReRatingReplaces(ratings: seq<UserRating>, movieId: string, r1: real, t1: int, r2: real, t2: int)
    ensures AfterAddRating(AfterAddRating(ratings, movieId, r1, t1), movieId, r2, t2)
            == AfterAddRating(ratings, movieId, r2, t2)
  {
    AddRatingKeepsOrder(ratings, movieId, r1, t1);
  }

  lemma {:induction false} WithoutMovieAppend(ratings: seq<UserRating>, x: UserRating, movieId: string)
    ensures WithoutMovie(ratings + [x], movieId)
            == WithoutMovie(ratings, movieId) + (if x.movieId != movieId then [x] else [])
  {
    if ratings != [] {
      WithoutMovieAppend(ratings[1..], x, movieId);
      assert (ratings + [x])[1..] == ratings[1..] + [x];
    }
  }

  lemma {:induction false} WithoutMovieIdempotent(ratings: seq<UserRating>, movieId: string)
    ensures WithoutMovie(WithoutMovie(ratings, movieId), movieId) == WithoutMovie(ratings, movieId)
  {
    if ratings != [] {
      WithoutMovieIdempotent(ratings[1..], movieId);
      var tail := WithoutMovie(ratings[1..], movieId);
      if ratings[0].movieId != movieId {
        assert ([ratings[0]] + tail)[1..] == tail;
      } else {
        assert WithoutMovie(ratings, movieId) == tail;
      }
    }
  }

  // ---------------------------------------------------------------------
  // The active tab
  // ---------------------------------------------------------------------

  /** The `switch (activeTab)`: content, collaborative, or hybrid for
      anything else. */
  function TabRecommendations(tab: Tab, movies: seq<Movie>, ratings: seq<UserRating>): seq<Recommendation> {
    match tab
    case ContentTab => ContentBased(movies, ratings, RecommendationLimit)
    case CollaborativeTab => Collaborative(movies, ratings, RecommendationLimit)
    case HybridTab => Hybrid(movies, ratings, RecommendationLimit)
  }

  /** The shared catalog after the tab's strategy ran. */
  function TabCatalog(tab: Tab, movies: seq<Movie>, ratings: seq<UserRating>): seq<Movie> {
    match tab
    case CollaborativeTab => movies
    case _ => CatalogAfterContent(movies, ratings)
  }

  /** Whatever the tab, at most twelve recommendations, all of catalog
      movies the user has not rated. */
  lemma TabRecommendationsSpec(tab: Tab, movies: seq<Movie>, ratings: seq<UserRating>)
    ensures var r := TabRecommendations(tab, movies, ratings);
            && |r| <= RecommendationLimit
            && forall x :: x in r ==> x.movie in movies && x.movie.id !in RatedIds(ratings)
  {
    match tab {
      case ContentTab =>
        ContentBasedExcludesRated(movies, ratings, RecommendationLimit);
        if RatedMovies(movies, ratings) == [] {
          ContentBasedCold(movies, ratings, RecommendationLimit);
        } else {
          ContentBasedWarm(movies, ratings, RecommendationLimit);
        }
      case CollaborativeTab =>
        CollaborativeExcludesRated(movies, ratings, RecommendationLimit);
        if RatedMovies(movies, ratings) == [] {
          CollaborativeCold(movies, ratings, RecommendationLimit);
        } else {
          CollaborativeWarm(movies, ratings, RecommendationLimit);
        }
      case HybridTab =>
        HybridExcludesRated(movies, ratings, RecommendationLimit);
        HybridRanked(movies, ratings, RecommendationLimit);
    }
  }

  /** Recomputing the active tab's recommendations after they changed the
      shared catalog gives the same list and leaves the catalog as it is. */
  lemma RecommendationsRepeat(tab: Tab, movies: seq<Movie>, ratings: seq<UserRating>)
    ensures var after := TabCatalog(tab, movies, ratings);
            && TabRecommendations(tab, after, ratings) == TabRecommendations(tab, movies, ratings)
            && TabCatalog(tab, after, ratings) == after
  {
    match tab {
      case ContentTab =>
        ContentAfterContent(movies, ratings, RecommendationLimit);
        CatalogAfterContentIdempotent(movies, ratings);
      case CollaborativeTab =>
      case HybridTab =>
        HybridAfterContent(movies, ratings, RecommendationLimit);
        CatalogAfterContentIdempotent(movies, ratings);
    }
  }

  // ---------------------------------------------------------------------
  // The hook's state
  // ---------------------------------------------------------------------

  class RecommendationsHook {
    const catalog: Catalog
    var userRatings: seq<UserRating>
    var activeTab: Tab

    /** The hook's first render: the ratings saved in local storage (or none)
        and the hybrid tab. */
    constructor(catalog: Catalog, saved: seq<UserRating>)
      ensures this.catalog == catalog
      ensures userRatings == saved && activeTab == HybridTab
    {
      this.catalog := catalog;
      userRatings := saved;
      activeTab := HybridTab;
    }

    /** `addRating(movieId, rating)` with `Date.now()` as `now`. */
    method AddRating(movieId: string, rating: real, now: int)
      modifies this
      ensures userRatings == AfterAddRating(old(userRatings), movieId, rating, now)
      ensures activeTab == old(activeTab)
    {
      var newRatings := WithoutMovie(userRatings, movieId);
      newRatings := newRatings + [UserRating(movieId, rating, now)];
      userRatings := newRatings;
    }

    /** `getRating(movieId)`. */
    function GetRating(movieId: string): (r: Option<real>)
      reads this
      ensures r.None? <==> movieId !in RatedIds(userRatings)
      ensures r.Some? ==> exists i :: 0 <= i < |userRatings| && userRatings[i].movieId == movieId && userRatings[i].rating == r.value
    {
      RatingOf(userRatings, movieId)
    }

    /** `getRatedMovies()`: the hook's ratings joined with the shared
        catalog, the same join the engine makes. */
    function GetRatedMovies(): (r: seq<RatedMovie>)
      reads this, catalog
      ensures |r| == |KnownRatings(catalog.movies, userRatings)| <= |userRatings|
      ensures forall i :: 0 <= i < |r| ==>
                && r[i].rating == KnownRatings(catalog.movies, userRatings)[i].rating
                && r[i].movie.id == KnownRatings(catalog.movies, userRatings)[i].movieId
                && r[i].movie in catalog.movies
    {
      RatedMoviesIsJoin(catalog.movies, userRatings);
      RatedMovies(catalog.movies, userRatings)
    }

    /** `setActiveTab(tab)`. */
    method SetActiveTab(tab: Tab)
      modifies this
      ensures activeTab == tab && userRatings == old(userRatings)
    {
      activeTab := tab;
    }

    /** The memoised `recommendations`: a fresh engine over the shared
        catalog and the current ratings, asked for twelve from the active
        tab's strategy. */
    method Recommendations() returns (recs: seq<Recommendation>)
      modifies catalog
      ensures recs == TabRecommendations(activeTab, old(catalog.movies), userRatings)
      ensures catalog.movies == TabCatalog(activeTab, old(catalog.movies), userRatings)
    {
      var engine := new RecommendationEngine(catalog, userRatings);
      match activeTab {
        case ContentTab =>
          recs := engine.GetContentBasedRecommendations(RecommendationLimit);
        case CollaborativeTab =>
          recs := engine.GetCollaborativeRecommendations(RecommendationLimit);
        case HybridTab =>
          recs := engine.GetHybridRecommendations(RecommendationLimit);
      }
    }
  }
}
