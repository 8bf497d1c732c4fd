/** The private helpers of `RecommendationEngine`
    (src/utils/recommendationEngine.ts:91-215): joining ratings with the
    catalog, building the preference maps, scoring one candidate and writing
    its reason.  The helpers the source writes as `forEach` loops over Maps
    and `let score` accumulators are methods proved against the functions
    that specify them. */
module Scoring {
  import opened Types
  import opened Assoc
  import opened Text
  import opened StableSort

  // ---------------------------------------------------------------------
  // Joining ratings with the catalog
  // ---------------------------------------------------------------------

  /** `movies.find(m => m.id === id)`: the first movie with that id. */
  function FindMovie(movies: seq<Movie>, id: string): (r: Option<Movie>)
    ensures r.None? <==> forall j :: 0 <= j < |movies| ==> movies[j].id != id
    ensures r.Some? ==> r.value in movies && r.value.id == id
    ensures r.Some? ==> exists i :: 0 <= i < |movies| && movies[i] == r.value &&
                          forall j :: 0 <= j < i ==> movies[j].id != id
  {
    if movies == [] then None
    else if movies[0].id == id then Some(movies[0])
    else FindMovie(movies[1..], id)
  }

  /** In a catalog with distinct ids, `find` returns the one movie with the id. */
  lemma {:induction false} FindMovieInDistinctCatalog(movies: seq<Movie>, j: nat)
    requires DistinctBy(movies, MovieId) && j < |movies|
    ensures FindMovie(movies, movies[j].id) == Some(movies[j])
  {
    if j > 0 {
      FindMovieInDistinctCatalog(movies[1..], j - 1);
    }
  }

  /** `getRatedMovies`: each rating whose id names a catalog movie, joined
      with that movie, in the order of the ratings. */
  function RatedMovies(movies: seq<Movie>, ratings: seq<UserRating>): (r: seq<RatedMovie>)
    ensures |r| <= |ratings|
  {
    if ratings == [] then []
    else
      (match FindMovie(movies, ratings[0].movieId)
       case Some(m) => [RatedMovie(m, ratings[0].rating)]
       case None => [])
      + RatedMovies(movies, ratings[1..])
  }

  /** The ratings whose id names some catalog movie, in their order. */
  function KnownRatings(movies: seq<Movie>, ratings: seq<UserRating>): (r: seq<UserRating>)
    ensures forall x :: x in r ==> x in ratings
  {
    if ratings == [] then []
    else
      (if exists j :: 0 <= j < |movies| && movies[j].id == ratings[0].movieId
       then [ratings[0]] else [])
      + KnownRatings(movies, ratings[1..])
  }

  /** The join drops exactly the ratings of unknown movies and keeps the
      order of the rest: entry i of the join carries the rating and the id of
      the i-th known rating, and a catalog movie. */
  lemma {:induction false} RatedMoviesIsJoin(movies: seq<Movie>, ratings: seq<UserRating>)
    ensures |RatedMovies(movies, ratings)| == |KnownRatings(movies, ratings)|
    ensures forall i :: 0 <= i < |RatedMovies(movies, ratings)| ==>
              && RatedMovies(movies, ratings)[i].rating == KnownRatings(movies, ratings)[i].rating
              && RatedMovies(movies, ratings)[i].movie.id == KnownRatings(movies, ratings)[i].movieId
              && RatedMovies(movies, ratings)[i].movie in movies
  {
    if ratings != [] {
      RatedMoviesIsJoin(movies, ratings[1..]);
    }
  }

  /** The cold-start test: the join is empty exactly when no rating names a
      catalog movie. */
  lemma {:induction false} RatedMoviesEmpty(movies: seq<Movie>, ratings: seq<UserRating>)
    ensures RatedMovies(movies, ratings) == [] <==>
            forall i, j :: 0 <= i < |ratings| && 0 <= j < |movies| ==> ratings[i].movieId != movies[j].id
  {
    if ratings != [] {
      RatedMoviesEmpty(movies, ratings[1..]);
      assert forall i :: 1 <= i < |ratings| ==> ratings[i] == ratings[1..][i - 1];
    }
  }

  /** `getUnratedMovies`: the catalog without every movie whose id occurs in
      the ratings (known to the catalog or not), in catalog order. */
  function UnratedMovies(movies: seq<Movie>, ratings: seq<UserRating>): (r: seq<Movie>)
    ensures |r| <= |movies|
    ensures forall m :: m in r <==> m in movies && m.id !in RatedIds(ratings)
  {
    if movies == [] then []
    else
      (if movies[0].id in RatedIds(ratings) then [] else [movies[0]])
      + UnratedMovies(movies[1..], ratings)
  }

  /** The filter works movie by movie: it keeps catalog order and keeps each
      unrated movie as many times as the catalog lists it. */
  lemma {:induction false} UnratedMoviesAppend(a: seq<Movie>, b: seq<Movie>, ratings: seq<UserRating>)
    ensures UnratedMovies(a + b, ratings) == UnratedMovies(a, ratings) + UnratedMovies(b, ratings)
  {
    if a == [] {
      assert a + b == b;
    } else {
      assert (a + b)[0] == a[0];
      assert (a + b)[1..] == a[1..] + b;
      UnratedMoviesAppend(a[1..], b, ratings);
    }
  }

  /** Each unrated movie is kept as many times as the catalog lists it, and
      each rated one is dropped every time. */
  lemma {:induction false} UnratedMoviesCount(movies: seq<Movie>, ratings: seq<UserRating>, m: Movie)
    ensures multiset(UnratedMovies(movies, ratings))[m] ==
            if m.id in RatedIds(ratings) then 0 else multiset(movies)[m]
  {
    if movies != [] {
      UnratedMoviesCount(movies[1..], ratings, m);
      assert movies == [movies[0]] + movies[1..];
    }
  }

  /** Filtering a catalog with distinct ids keeps them distinct. */
  lemma {:induction false} UnratedKeepsDistinct(movies: seq<Movie>, ratings: seq<UserRating>)
    requires DistinctBy(movies, MovieId)
    ensures DistinctBy(UnratedMovies(movies, ratings), MovieId)
  {
    if movies != [] {
      UnratedKeepsDistinct(movies[1..], ratings);
      var r := UnratedMovies(movies, ratings);
      var rest := UnratedMovies(movies[1..], ratings);
      forall y | y in rest ensures y.id != movies[0].id {
        var j :| 0 <= j < |movies[1..]| && movies[1..][j] == y;
        assert movies[j + 1] == y;
      }
    }
  }

  // ---------------------------------------------------------------------
  // Preference maps
  // ---------------------------------------------------------------------

  /** A rated movie's contribution: `rating / 5` for the content-based maps,
      the raw rating for the collaborative genre map. */
  function Weight(rm: RatedMovie, normalized: bool): real {
    if normalized then rm.rating / 5.0 else rm.rating
  }

  /** The Map a `forEach` over the rated movies builds for one feature, each
      movie adding its weight under each value it lists. */
  function Tally(rated: seq<RatedMovie>, f: Feature, normalized: bool): Table {
    if rated == [] then []
    else
      var n := |rated| - 1;
      AddAll(Tally(rated[..n], f, normalized), Features(rated[n].movie, f), Weight(rated[n], normalized))
  }

  /** The sum, over the rated movies, of a movie's weight once for every time
      it lists `k` for the feature (a genre listed twice counts twice). */
  function FeatureWeight(rated: seq<RatedMovie>, f: Feature, normalized: bool, k: string): real {
    if rated == [] then 0.0
    else
      var n := |rated| - 1;
      FeatureWeight(rated[..n], f, normalized, k)
      + PerOccurrence(Features(rated[n].movie, f), k, Weight(rated[n], normalized))
  }

  /** What the Map reads under any key is the feature weight of that key. */
  lemma {:induction false} TallyGet(rated: seq<RatedMovie>, f: Feature, normalized: bool, k: string)
    ensures Get(Tally(rated, f, normalized), k) == FeatureWeight(rated, f, normalized, k)
  {
    if rated != [] {
      var n := |rated| - 1;
      TallyGet(rated[..n], f, normalized, k);
      AddAllGet(Tally(rated[..n], f, normalized), Features(rated[n].movie, f), Weight(rated[n], normalized), k);
    }
  }

  /** The Map has a key exactly when some rated movie lists it. */
  lemma {:induction false} TallyHas(rated: seq<RatedMovie>, f: Feature, normalized: bool, k: string)
    ensures Has(Tally(rated, f, normalized), k) <==>
            exists i :: 0 <= i < |rated| && k in Features(rated[i].movie, f)
  {
    if rated != [] {
      var n := |rated| - 1;
      TallyHas(rated[..n], f, normalized, k);
      AddAllHas(Tally(rated[..n], f, normalized), Features(rated[n].movie, f), Weight(rated[n], normalized), k);
      assert forall i :: 0 <= i < n ==> rated[..n][i] == rated[i];
    }
  }

  lemma {:induction false} TallyKeysDistinct(rated: seq<RatedMovie>, f: Feature, normalized: bool)
    ensures DistinctKeys(Tally(rated, f, normalized))
  {
    if rated != [] {
      var n := |rated| - 1;
      TallyKeysDistinct(rated[..n], f, normalized);
      AddAllKeepsKeysDistinct(Tally(rated[..n], f, normalized), Features(rated[n].movie, f), Weight(rated[n], normalized));
    }
  }

  /** The four maps of `calculateUserPreferences`. */
  datatype Preferences = Preferences(genres: Table, directors: Table, actors: Table, tags: Table)

  function PreferencesOf(rated: seq<RatedMovie>): Preferences {
    Preferences(Tally(rated, Genre, true), Tally(rated, Director, true),
                Tally(rated, Actor, true), Tally(rated, Tag, true))
  }

  /** The map of `calculateGenrePreferences`. */
  function GenreScoresOf(rated: seq<RatedMovie>): Table {
    Tally(rated, Genre, false)
  }

  /** `keys.forEach(k => map.set(k, (map.get(k) || 0) + w))`. */
  method AddEach(t: Table, keys: seq<string>, w: real) returns (r: Table)
    ensures r == AddAll(t, keys, w)
  {
    r := t;
    var i := 0;
    while i < |keys|
      invariant 0 <= i <= |keys|
      invariant r == AddAll(t, keys[..i], w)
    {
      assert keys[..i + 1][..i] == keys[..i];
      r := Add(r, keys[i], w);
      i := i + 1;
    }
    assert keys[..|keys|] == keys;
  }

  /** `calculateUserPreferences` (src/utils/recommendationEngine.ts:105-132). */
  method CalculateUserPreferences(rated: seq<RatedMovie>) returns (p: Preferences)
    ensures p == PreferencesOf(rated)
  {
    p := Preferences([], [], [], []);
    var i := 0;
    while i < |rated|
      invariant 0 <= i <= |rated|
      invariant p == PreferencesOf(rated[..i])
    {
      assert rated[..i + 1][..i] == rated[..i];
      var movie, weight := rated[i].movie, rated[i].rating / 5.0;
      var genres := AddEach(p.genres, movie.genre, weight);
      assert [movie.director][..0] == [];
      assert AddAll(p.directors, [movie.director], weight) == Add(p.directors, movie.director, weight);
      var directors := Add(p.directors, movie.director, weight);
      var actors := AddEach(p.actors, movie.cast, weight);
      var tags := AddEach(p.tags, movie.tags, weight);
      p := Preferences(genres, directors, actors, tags);
      i := i + 1;
    }
    assert rated[..|rated|] == rated;
  }

  /** `calculateGenrePreferences` (src/utils/recommendationEngine.ts:161-171). */
  method CalculateGenrePreferences(rated: seq<RatedMovie>) returns (t: Table)
    ensures t == GenreScoresOf(rated)
  {
    t := [];
    var i := 0;
    while i < |rated|
      invariant 0 <= i <= |rated|
      invariant t == Tally(rated[..i], Genre, false)
    {
      assert rated[..i + 1][..i] == rated[..i];
      t := AddEach(t, rated[i].movie.genre, rated[i].rating);
      i := i + 1;
    }
    assert rated[..|rated|] == rated;
  }

  // ---------------------------------------------------------------------
  // Scores
  // ---------------------------------------------------------------------

  /** The content-based score of a candidate against the preference maps. */
  function ContentScore(m: Movie, p: Preferences): real {
    SumOver(p.genres, m.genre)
    + Get(p.directors, m.director) * 2.0
    + SumOver(p.actors, m.cast) * 1.5
    + SumOver(p.tags, m.tags) * 0.5
    + (m.rating / 10.0) * 2.0
  }

  /** `calculateContentSimilarity` (src/utils/recommendationEngine.ts:134-159). */
  method CalculateContentSimilarity(m: Movie, p: Preferences) returns (score: real)
    ensures score == ContentScore(m, p)
  {
    score := 0.0;
    var i := 0;
    while i < |m.genre|
      invariant 0 <= i <= |m.genre|
      invariant score == SumOver(p.genres, m.genre[..i])
    {
      assert m.genre[..i + 1][..i] == m.genre[..i];
      score := score + Get(p.genres, m.genre[i]);
      i := i + 1;
    }
    assert m.genre[..|m.genre|] == m.genre;
    score := score + Get(p.directors, m.director) * 2.0;
    ghost var before := score;
    i := 0;
    while i < |m.cast|
      invariant 0 <= i <= |m.cast|
      invariant score == before + SumOver(p.actors, m.cast[..i]) * 1.5
    {
      assert m.cast[..i + 1][..i] == m.cast[..i];
      score := score + Get(p.actors, m.cast[i]) * 1.5;
      i := i + 1;
    }
    assert m.cast[..|m.cast|] == m.cast;
    before := score;
    i := 0;
    while i < |m.tags|
      invariant 0 <= i <= |m.tags|
      invariant score == before + SumOver(p.tags, m.tags[..i]) * 0.5
    {
      assert m.tags[..i + 1][..i] == m.tags[..i];
      score := score + Get(p.tags, m.tags[i]) * 0.5;
      i := i + 1;
    }
    assert m.tags[..|m.tags|] == m.tags;
    score := score + (m.rating / 10.0) * 2.0;
  }

  /** The sum of the feature weights of `keys`, one term per listed key. */
  function SumWeights(rated: seq<RatedMovie>, f: Feature, normalized: bool, keys: seq<string>): real {
    if keys == [] then 0.0
    else SumWeights(rated, f, normalized, keys[..|keys| - 1]) + FeatureWeight(rated, f, normalized, keys[|keys| - 1])
  }

  lemma {:induction false} SumOverTally(rated: seq<RatedMovie>, f: Feature, normalized: bool, keys: seq<string>)
    ensures SumOver(Tally(rated, f, normalized), keys) == SumWeights(rated, f, normalized, keys)
  {
    if keys != [] {
      SumOverTally(rated, f, normalized, keys[..|keys| - 1]);
      TallyGet(rated, f, normalized, keys[|keys| - 1]);
    }
  }

  /** The content score in terms of the rated movies: genre weights summed
      over the candidate's genres, twice its director's weight, 1.5 times its
      cast's weights, half its tags' weights, and a fifth of its external
      rating; every weight sums `rating / 5` over the rated movies listing the
      value, and a value no rated movie lists weighs 0. */
  lemma ContentScoreFormula(m: Movie, rated: seq<RatedMovie>)
    ensures ContentScore(m, PreferencesOf(rated))
            == SumWeights(rated, Genre, true, m.genre)
               + 2.0 * FeatureWeight(rated, Director, true, m.director)
               + 1.5 * SumWeights(rated, Actor, true, m.cast)
               + 0.5 * SumWeights(rated, Tag, true, m.tags)
               + m.rating / 5.0
  {
    SumOverTally(rated, Genre, true, m.genre);
    TallyGet(rated, Director, true, m.director);
    SumOverTally(rated, Actor, true, m.cast);
    SumOverTally(rated, Tag, true, m.tags);
  }

  /** The collaborative score of a candidate against the genre map. */
  function CollaborativeScore(m: Movie, genreScores: Table): real {
    SumOver(genreScores, m.genre) + m.rating
  }

  /** `calculateCollaborativeScore` (src/utils/recommendationEngine.ts:173-184). */
  method CalculateCollaborativeScore(m: Movie, genreScores: Table) returns (score: real)
    ensures score == CollaborativeScore(m, genreScores)
  {
    score := 0.0;
    var i := 0;
    while i < |m.genre|
      invariant 0 <= i <= |m.genre|
      invariant score == SumOver(genreScores, m.genre[..i])
    {
      assert m.genre[..i + 1][..i] == m.genre[..i];
      score := score + Get(genreScores, m.genre[i]);
      i := i + 1;
    }
    assert m.genre[..|m.genre|] == m.genre;
    score := score + m.rating;
  }

  /** The collaborative score in terms of the rated movies: for each of the
      candidate's genres, the raw ratings of the rated movies listing it (once
      per listing), plus the candidate's external rating. */
  lemma CollaborativeScoreFormula(m: Movie, rated: seq<RatedMovie>)
    ensures CollaborativeScore(m, GenreScoresOf(rated))
            == SumWeights(rated, Genre, false, m.genre) + m.rating
  {
    SumOverTally(rated, Genre, false, m.genre);
  }

  // ---------------------------------------------------------------------
  // Reasons
  // ---------------------------------------------------------------------

  /** `keys.find(k => map.has(k))`: the first of `keys` the map has. */
  function FirstPresent(keys: seq<string>, t: Table): (r: Option<string>)
    ensures r.None? <==> forall i :: 0 <= i < |keys| ==> !Has(t, keys[i])
    ensures r.Some? ==> exists i :: 0 <= i < |keys| && keys[i] == r.value && Has(t, r.value)
                                    && forall j :: 0 <= j < i ==> !Has(t, keys[j])
  {
    if keys == [] then None
    else if Has(t, keys[0]) then Some(keys[0])
    else
      var r := FirstPresent(keys[1..], t);
      assert r.Some? ==> exists i :: 0 < i < |keys| && keys[i] == r.value && Has(t, r.value)
                                     && forall j :: 0 <= j < i ==> !Has(t, keys[j]) by {
        if r.Some? {
          var i :| 0 <= i < |keys[1..]| && keys[1..][i] == r.value && Has(t, r.value)
                   && forall j :: 0 <= j < i ==> !Has(t, keys[1..][j]);
          assert forall j :: 0 <= j < i + 1 ==> !Has(t, keys[j]) by {
            forall j | 0 < j < i + 1 ensures !Has(t, keys[j]) {
              assert keys[j] == keys[1..][j - 1];
            }
          }
          assert keys[i + 1] == r.value;
        }
      }
      r
  }

  /** Some rated movie lists `k` for the feature. */
  predicate Listed(rated: seq<RatedMovie>, f: Feature, k: string) {
    exists i :: 0 <= i < |rated| && k in Features(rated[i].movie, f)
  }

  /** The first of `keys` that some rated movie lists for the feature. */
  function FirstListed(keys: seq<string>, rated: seq<RatedMovie>, f: Feature): (r: Option<string>)
    ensures r.None? <==> forall i :: 0 <= i < |keys| ==> !Listed(rated, f, keys[i])
    ensures r.Some? ==> exists i :: 0 <= i < |keys| && keys[i] == r.value && Listed(rated, f, r.value)
                                    && forall j :: 0 <= j < i ==> !Listed(rated, f, keys[j])
  {
    if keys == [] then None
    else if Listed(rated, f, keys[0]) then Some(keys[0])
    else
      var r := FirstListed(keys[1..], rated, f);
      assert r.Some? ==> exists i :: 0 < i < |keys| && keys[i] == r.value && Listed(rated, f, r.value)
                                     && forall j :: 0 <= j < i ==> !Listed(rated, f, keys[j]) by {
        if r.Some? {
          var i :| 0 <= i < |keys[1..]| && keys[1..][i] == r.value && Listed(rated, f, r.value)
                   && forall j :: 0 <= j < i ==> !Listed(rated, f, keys[1..][j]);
          assert forall j :: 0 <= j < i + 1 ==> !Listed(rated, f, keys[j]) by {
            forall j | 0 < j < i + 1 ensures !Listed(rated, f, keys[j]) {
              assert keys[j] == keys[1..][j - 1];
            }
          }
          assert keys[i + 1] == r.value;
        }
      }
      r
  }

  /** Looking a candidate's values up in a preference map finds the first
      value that some rated movie lists. */
  lemma {:induction false} FirstPresentIsFirstListed(keys: seq<string>, rated: seq<RatedMovie>, f: Feature, normalized: bool)
    ensures FirstPresent(keys, Tally(rated, f, normalized)) == FirstListed(keys, rated, f)
  {
    if keys != [] {
      TallyHas(rated, f, normalized, keys[0]);
      FirstPresentIsFirstListed(keys[1..], rated, f, normalized);
    }
  }

  /** A `find` result is pushed only when it is truthy: an empty string is not. */
  function Truthy(r: Option<string>): Option<string> {
    if r.Some? && r.value != "" then r else None
  }

  /** The genre signal: the first of the candidate's genres the genre map
      has, when that genre is not the empty string. */
  function GenreSignal(m: Movie, p: Preferences): seq<string> {
    match Truthy(FirstPresent(m.genre, p.genres))
    case Some(g) => ["you enjoy " + g + " films"]
    case None => []
  }

  /** The director signal. */
  function DirectorSignal(m: Movie, p: Preferences): seq<string> {
    if Has(p.directors, m.director) then ["you like " + m.director + "'s work"] else []
  }

  /** The cast signal: the first of the candidate's cast the actor map has,
      when that name is not the empty string. */
  function ActorSignal(m: Movie, p: Preferences): seq<string> {
    match Truthy(FirstPresent(m.cast, p.actors))
    case Some(a) => ["features " + a]
    case None => []
  }

  /** The `reasons` array of `generateContentReason`, before truncation. */
  function ContentSignals(m: Movie, p: Preferences): seq<string> {
    GenreSignal(m, p) + DirectorSignal(m, p) + ActorSignal(m, p)
  }

  /** `generateContentReason` (src/utils/recommendationEngine.ts:186-200): the
      first two signals joined with " and ", or "highly rated film" when there
      is none. */
  function ContentReason(m: Movie, p: Preferences): (r: string)
    ensures r == "highly rated film" <==> ContentSignals(m, p) == []
    ensures |ContentSignals(m, p)| == 1 ==> r == ContentSignals(m, p)[0]
    ensures |ContentSignals(m, p)| >= 2 ==> r == ContentSignals(m, p)[0] + " and " + ContentSignals(m, p)[1]
  {
    var signals := ContentSignals(m, p);
    var joined := Join(Take(signals, 2), " and ");
    assert |signals| == 1 ==> joined == signals[0] by {
      if |signals| == 1 {
        assert Take(signals, 2) == [signals[0]];
      }
    }
    assert |signals| >= 2 ==> joined == signals[0] + " and " + signals[1] by {
      if |signals| >= 2 {
        assert Take(signals, 2) == [signals[0], signals[1]];
        assert Take(signals, 2)[1..] == [signals[1]];
        assert Join([signals[1]], " and ") == signals[1];
      }
    }
    assert signals != [] ==> joined != "" && joined[0] != 'h' by {
      if signals != [] {
        JoinStartsWithFirst(Take(signals, 2), " and ");
        assert signals[0][0] == 'y' || signals[0][0] == 'f';
        assert joined[0] == signals[0][0];
      }
    }
    if joined == "" then "highly rated film" else joined
  }

  /** The genre signal names the first of the candidate's genres that some
      rated movie lists (unless that genre is the empty string). */
  lemma GenreSignalFromRatings(m: Movie, rated: seq<RatedMovie>)
    ensures GenreSignal(m, PreferencesOf(rated))
            == match Truthy(FirstListed(m.genre, rated, Genre))
               case Some(g) => ["you enjoy " + g + " films"]
               case None => []
  {
    FirstPresentIsFirstListed(m.genre, rated, Genre, true);
  }

  /** The director signal is given exactly when some rated movie has the
      candidate's director. */
  lemma DirectorSignalFromRatings(m: Movie, rated: seq<RatedMovie>)
    ensures DirectorSignal(m, PreferencesOf(rated))
            == if exists i :: 0 <= i < |rated| && rated[i].movie.director == m.director
               then ["you like " + m.director + "'s work"] else []
  {
    TallyHas(rated, Director, true, m.director);
    assert forall i :: 0 <= i < |rated| ==>
      (m.director in Features(rated[i].movie, Director) <==> rated[i].movie.director == m.director);
  }

  /** The cast signal names the first of the candidate's cast that some rated
      movie lists (unless that name is the empty string). */
  lemma ActorSignalFromRatings(m: Movie, rated: seq<RatedMovie>)
    ensures ActorSignal(m, PreferencesOf(rated))
            == match Truthy(FirstListed(m.cast, rated, Actor))
               case Some(a) => ["features " + a]
               case None => []
  {
    FirstPresentIsFirstListed(m.cast, rated, Actor, true);
  }

  /** A genre-map entry's score. */
  function EntryScore(e: (string, real)): real { e.1 }

  /** The two genres of the map with the highest scores, ties in insertion
      order (`entries().sort(...).slice(0, 2)`). */
  function TopGenres(t: Table): seq<string> {
    Keys(Take(Sort(t, EntryScore), 2))
  }

  /** The top genres are two of the map's genres (fewer if it has fewer), and
      no other genre of the map scores higher than one of them. */
  lemma TopGenresAreTop(t: Table)
    requires DistinctKeys(t)
    ensures |TopGenres(t)| == if |t| < 2 then |t| else 2
    ensures forall g :: g in TopGenres(t) ==> Has(t, g)
    ensures forall g, k :: g in TopGenres(t) && Has(t, k) && k !in TopGenres(t) ==> Get(t, k) <= Get(t, g)
  {
    var sorted := Sort(t, EntryScore);
    var top := Take(sorted, 2);
    forall g | g in TopGenres(t) ensures Has(t, g) {
      var i :| 0 <= i < |top| && Keys(top)[i] == g;
      assert top[i] in multiset(t);
      HasIsInKeys(t, g);
      var j :| 0 <= j < |t| && t[j] == top[i];
      assert Keys(t)[j] == g;
    }
    forall g, k | g in TopGenres(t) && Has(t, k) && k !in TopGenres(t) ensures Get(t, k) <= Get(t, g) {
      var i :| 0 <= i < |top| && Keys(top)[i] == g;
      assert top[i] in multiset(t);
      var j :| 0 <= j < |t| && t[j] == top[i];
      GetOfEntry(t, j);
      GetIsStored(t, k);
      var e := (k, Get(t, k));
      assert e in multiset(sorted);
      TakeKeepsBest(sorted, 2, EntryScore, top[i], e);
    }
  }

  /** Among genre-map entries with equal scores, the top ones are the
      earliest inserted. */
  lemma TopGenresTies(t: Table, v: real)
    ensures WithKey(Take(Sort(t, EntryScore), 2), EntryScore, v) <= WithKey(t, EntryScore, v)
  {
    TakeKeepsGroupPrefix(Sort(t, EntryScore), 2, EntryScore, v);
  }

  /** `genres.filter(g => top.includes(g))`. */
  function MatchingGenres(genres: seq<string>, top: seq<string>): (r: seq<string>)
    ensures forall g :: g in r <==> g in genres && g in top
  {
    if genres == [] then []
    else (if genres[0] in top then [genres[0]] else []) + MatchingGenres(genres[1..], top)
  }

  /** The filter keeps the movie's genre order: filtering a concatenation
      concatenates the filtered parts. */
  lemma {:induction false} MatchingGenresAppend(a: seq<string>, b: seq<string>, top: seq<string>)
    ensures MatchingGenres(a + b, top) == MatchingGenres(a, top) + MatchingGenres(b, top)
  {
    if a != [] {
      assert (a + b)[1..] == a[1..] + b;
      MatchingGenresAppend(a[1..], b, top);
    } else {
      assert a + b == b;
    }
  }

  /** `generateCollaborativeReason` (src/utils/recommendationEngine.ts:202-215):
      names the candidate's genres that are among the top two, in the
      candidate's order and joined with " and ", or says it is trending. */
  function CollaborativeReason(m: Movie, genreScores: Table): (r: string)
    ensures r == "trending with similar users" <==>
            forall g :: g in m.genre ==> g !in TopGenres(genreScores)
    ensures r != "trending with similar users" ==>
            && MatchingGenres(m.genre, TopGenres(genreScores)) != []
            && r == "popular among fans of " + Join(MatchingGenres(m.genre, TopGenres(genreScores)), " and ")
  {
    var matching := MatchingGenres(m.genre, TopGenres(genreScores));
    if |matching| > 0 then
      var r := "popular among fans of " + Join(matching, " and ");
      assert r[0] == 'p';
      assert matching[0] in matching;
      r
    else "trending with similar users"
  }
}
