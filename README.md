# Movie recommendation engine, modelled in Dafny

This project models the core of a small movie recommender written in
TypeScript. The model covers two files.

- `RecommendationEngine` (src/utils/recommendationEngine.ts) holds the movie
  catalog and one user's star ratings. It offers three strategies, each
  returning at most `limit` scored and explained recommendations:
  - **content-based**: learns weights for genres, directors, actors and tags
    from the rated movies and scores every unrated movie against them;
  - **collaborative**: scores unrated movies by the summed ratings of their
    genres;
  - **hybrid**: runs both strategies with twice the limit, blends their
    results 60/40 in a Map keyed by movie id, and keeps the best.
  With no rated catalog movie (cold start), content-based falls back to the
  catalog's best-rated movies and collaborative falls back to the best-rated
  movies from 2010 on.
- The `useRecommendations` hook (src/hooks/useRecommendations.ts) keeps the
  rating list (`addRating`, `getRating`, `getRatedMovies`) and the active tab.
  It asks the engine for twelve recommendations from the tab's strategy.

How the model is built:

- **Records.** Movies, ratings and recommendations are datatypes (module
  `Types`). Numbers are `real`.
- **Maps.** A JavaScript `Map` is an association list in insertion order
  (module `Assoc`). The order matters: it decides how ties are broken.
- **Sorting.** `Array.prototype.sort` with a `b - a` comparator is a stable
  descending sort (module `StableSort`). `SortIsUnique` shows that its
  contract fixes the result completely: descending, and every group of equal
  keys in its original order.
- **Loops.** Each `forEach` or accumulating loop of the engine is a method
  with loop invariants, proved equal to a specification function (modules
  `Scoring` and `Engine`). The strategies themselves are functions (module
  `Strategies`). Their properties are lemmas (modules `StrategyFacts` and
  `HybridFacts`).
- **Shared catalog.** The catalog is one array, shared by reference.
  `getPopularMovies` sorts it in place. It is modelled as a `Catalog` object
  whose `movies` field the engine methods reassign. The cold-start
  content-based call therefore leaves the catalog sorted, and the
  collaborative call that `getHybridRecommendations` makes next reads it in
  that order. `CollaborativeAfterContent` proves that this order does not
  change what the collaborative strategy returns.
- **Hook.** The hook's state is the class `RatingsHook.RecommendationsHook`.
  The tab dispatch is the function `TabRecommendations`.

## Model

All paths are relative to the repository root. Unless a row says otherwise, lines are in src/utils/recommendationEngine.ts.

| member | source | states |
|---|---|---|
| Engine.Catalog.constructor | src/hooks/useRecommendations.ts:4 | The shared catalog starts as the movie list it is given. |
| Engine.RecommendationEngine.constructor | src/utils/recommendationEngine.ts:7-10 | The engine holds the shared catalog by reference, plus the rating list it was built with. |
| Engine.RecommendationEngine.GetContentBasedRecommendations | src/utils/recommendationEngine.ts:13-32 | Returns `ContentBased` of the catalog as it was before the call. Leaves the catalog rating-sorted on cold start and unchanged otherwise. |
| Engine.RecommendationEngine.ScoreByContent | src/utils/recommendationEngine.ts:22-27 | Loop invariant: the candidates are the first `i` unrated movies, each with its content score and content reason. |
| Engine.RecommendationEngine.GetCollaborativeRecommendations | src/utils/recommendationEngine.ts:35-54 | Returns `Collaborative` of the current catalog. Changes nothing. |
| Engine.RecommendationEngine.ScoreByGenres | src/utils/recommendationEngine.ts:44-49 | Loop invariant: the candidates are the first `i` unrated movies, each with its collaborative score and reason. |
| Engine.RecommendationEngine.GetHybridRecommendations | src/utils/recommendationEngine.ts:57-89 | Returns `Hybrid` of the catalog before the call. The collaborative half sees the catalog that the content half left behind. |
| Engine.MergeRecommendations | src/utils/recommendationEngine.ts:61-86 | The two `forEach` passes over the id-keyed Map produce `Merge(content, collab)`. Loop invariants track each pass. |
| Engine.RecommendationEngine.GetPopularMovies | src/utils/recommendationEngine.ts:217-226 | The catalog becomes its stable descending sort by rating. The result is the first `limit` movies, scored by their rating, with reason "highly rated film". |
| StrategyFacts.PopularIsBest | src/utils/recommendationEngine.ts:217-226 | Sorting movies and then wrapping them equals wrapping them and then sorting by score. So popular is the best `limit` of the catalog scored by rating. |
| Strategies.Popular | src/utils/recommendationEngine.ts:217-226 | Returns `min(limit, catalog size)` recommendations. Each is a catalog movie scored by its own rating, with reason "highly rated film". |
| StrategyFacts.AsRecommendationsSort | src/utils/recommendationEngine.ts:219-225 | Wrapping movies as recommendations (score = rating) commutes with the stable sort. |
| StrategyFacts.AsRecommendationsMembers | src/utils/recommendationEngine.ts:221-225 | A wrapped recommendation exists exactly for each listed movie, with score = rating and the given reason. |
| StrategyFacts.TrendingIsBest | src/utils/recommendationEngine.ts:228-238 | Trending is the best `limit` of the movies from 2010 on, scored by rating, with reason "trending now". |
| Strategies.Trending | src/utils/recommendationEngine.ts:228-238 | Returns at most `limit` recommendations. Each is a catalog movie from 2010 on, scored by its own rating, with reason "trending now". |
| StrategyFacts.TrendingIgnoresSortedCatalog | src/utils/recommendationEngine.ts:228-238 | Trending gives the same result whether or not the catalog was sorted by rating first. |
| StrategyFacts.RecentGroups | src/utils/recommendationEngine.ts:230 | The year filter keeps each equal-rating group in order. |
| Strategies.Recent | src/utils/recommendationEngine.ts:230 | A movie is kept if and only if it is in the catalog and its year is at least 2010. RecentAppend and RecentCount give its order and multiplicity. |
| Strategies.RecentAppend | src/utils/recommendationEngine.ts:230 | The year filter keeps catalog order: filtering a concatenation concatenates the filtered parts. |
| Strategies.RecentCount | src/utils/recommendationEngine.ts:230 | A movie from 2010 on is kept as many times as the catalog lists it, and an older one is never kept. |
| StrategyFacts.ColdIff | src/utils/recommendationEngine.ts:14-17 | Cold start (no rated movies) holds exactly when no catalog movie's id is among the rated ids. |
| StrategyFacts.ColdAfterSort | src/utils/recommendationEngine.ts:14-17 | Sorting the catalog does not change whether the user is cold. |
| StrategyFacts.ContentBasedCold | src/utils/recommendationEngine.ts:15-16 | Cold start gives `min(limit, catalog size)` catalog movies. They are sorted by score, each scores its own rating with reason "highly rated film", nothing left out scores higher, and ties keep catalog order. |
| StrategyFacts.ContentBasedWarm | src/utils/recommendationEngine.ts:19-31 | Otherwise, the result has `min(limit, unrated count)` unrated movies, each with its content score and reason. It is sorted, no candidate left out scores higher, and ties follow the order of the unrated list, which UnratedMoviesAppend shows is catalog order. |
| StrategyFacts.ContentCandidatesMembers | src/utils/recommendationEngine.ts:22-27 | Candidates are exactly the unrated movies, paired with their content score and reason. |
| StrategyFacts.ContentBasedExcludesRated | src/utils/recommendationEngine.ts:13-32 | Every content-based recommendation is a catalog movie the user has not rated. |
| StrategyFacts.ContentBasedDistinct | src/utils/recommendationEngine.ts:13-32 | With distinct catalog ids, no movie is recommended twice. |
| StrategyFacts.CatalogAfterContentFacts | src/utils/recommendationEngine.ts:16 | The content call permutes the catalog. On cold start the catalog ends rating-sorted; otherwise it is untouched. Distinct ids stay distinct. |
| StrategyFacts.CatalogAfterContentIdempotent | src/utils/recommendationEngine.ts:16 | A second content call leaves the catalog as the first one left it. |
| StrategyFacts.ContentAfterContent | src/utils/recommendationEngine.ts:13-32 | Running the content strategy again, on the catalog its first run left behind, gives the same recommendations. |
| StrategyFacts.CollaborativeCold | src/utils/recommendationEngine.ts:37-39 | Cold start gives the best `limit` movies from 2010 on, with score = rating and reason "trending now". They are sorted, with ties in the order of the filtered list, which RecentAppend shows is catalog order. |
| StrategyFacts.CollaborativeWarm | src/utils/recommendationEngine.ts:41-53 | Otherwise, the result has `min(limit, unrated count)` unrated movies, each with its collaborative score and reason. It is sorted, nothing left out scores higher, and ties follow the order of the unrated list, which UnratedMoviesAppend shows is catalog order. |
| StrategyFacts.CollaborativeCandidatesMembers | src/utils/recommendationEngine.ts:44-49 | Candidates are exactly the unrated movies, paired with their collaborative score and reason. |
| StrategyFacts.CollaborativeExcludesRated | src/utils/recommendationEngine.ts:35-54 | Every collaborative recommendation is a catalog movie the user has not rated. |
| StrategyFacts.CollaborativeDistinct | src/utils/recommendationEngine.ts:35-54 | With distinct catalog ids, no movie is recommended twice. |
| StrategyFacts.CollaborativeAfterContent | src/utils/recommendationEngine.ts:58-59 | The collaborative strategy returns the same result on the catalog the content call left behind as on the original catalog. |
| StrategyFacts.BestSpec | src/utils/recommendationEngine.ts:28-29 | Sort then slice gives `min(limit, n)` candidates, sorted by score, with ties in input order. Nothing left out scores higher than anything kept. |
| StrategyFacts.CandidatesKeepDistinct | src/utils/recommendationEngine.ts:22-27 | Mapping distinct-id movies to recommendations keeps the ids distinct. |
| HybridFacts.PutLookup | src/utils/recommendationEngine.ts:65 | After `set`, the key reads the new entry and every other key reads as before. |
| Strategies.Put | src/utils/recommendationEngine.ts:65 | `set` adds at most one entry to the Map. |
| HybridFacts.PutIds | src/utils/recommendationEngine.ts:65 | `set` on a present id keeps the key order; on a new id it appends that id last. |
| HybridFacts.PutMembers | src/utils/recommendationEngine.ts:65 | After `set`, every Map value is the new entry or an old one. |
| HybridFacts.PutKeepsDistinct | src/utils/recommendationEngine.ts:65 | `set` never stores two entries under one id. |
| HybridFacts.LookupFinds | src/utils/recommendationEngine.ts:73-74 | `get` finds nothing exactly when no entry has the id. Otherwise it returns a stored entry with that id. |
| Strategies.Lookup | src/utils/recommendationEngine.ts:73-74 | `get` by id, with no contract of its own; LookupFinds states what it returns. |
| HybridFacts.LookupOfEntry | src/utils/recommendationEngine.ts:73-74 | In a Map with distinct keys, `get` of an entry's id returns that entry. |
| HybridFacts.SeedContentLookup | src/utils/recommendationEngine.ts:64-70 | After the first pass, each content recommendation's id reads 60% of its score, with the "Content match: " prefix. |
| HybridFacts.FoldCollaborativeLookup | src/utils/recommendationEngine.ts:72-84 | After the second pass, an id of a collaborative recommendation reads the folded entry (40% added, reason extended, or a fresh "User pattern: " entry). Other ids read as before. |
| HybridFacts.FoldInBlend | src/utils/recommendationEngine.ts:73-83 | Folding a collaborative recommendation into the first pass's entry gives the blend of both. |
| Strategies.FoldIn | src/utils/recommendationEngine.ts:73-83 | The folded entry stays under the collaborative recommendation's id, and its reason ends with the collaborative reason. |
| HybridFacts.MergeEntry | src/utils/recommendationEngine.ts:61-86 | Each id reads the blend of its content and collaborative recommendations: `0.6 c + 0.4 k` with both reasons, `0.6 c` alone, or `0.4 k` alone. |
| HybridFacts.MergeMembers | src/utils/recommendationEngine.ts:86 | A value is in the Map exactly when it is the blend of the content and collaborative recommendations for its id. |
| HybridFacts.MergeCoversBoth | src/utils/recommendationEngine.ts:61-86 | An id is in the Map exactly when either strategy recommended it. |
| HybridFacts.MergeDistinct | src/utils/recommendationEngine.ts:61-86 | The Map holds at most one entry per movie id. |
| HybridFacts.SeedContentMovies | src/utils/recommendationEngine.ts:64-70 | Every entry after the first pass is about a movie of a content recommendation. |
| HybridFacts.FoldCollaborativeMovies | src/utils/recommendationEngine.ts:72-84 | Every entry after the second pass is about a movie already in the Map or a movie of a collaborative recommendation. |
| HybridFacts.MergeMovies | src/utils/recommendationEngine.ts:61-86 | Every merged entry is about a movie that one of the two strategies proposed. |
| Strategies.SeedContent | src/utils/recommendationEngine.ts:64-70 | The first pass stores at most one entry per content recommendation. |
| Strategies.FoldCollaborative | src/utils/recommendationEngine.ts:72-84 | The second pass keeps every entry and adds at most one per collaborative recommendation. |
| Strategies.Merge | src/utils/recommendationEngine.ts:61-86 | The Map has at most as many entries as the two lists together. |
| HybridFacts.SeedContentIds | src/utils/recommendationEngine.ts:64-70 | After the first pass the Map's keys are the content ids, in content order. |
| HybridFacts.FoldCollaborativeIds | src/utils/recommendationEngine.ts:72-84 | After the second pass the keys are the earlier keys, then the new collaborative ids, in collaborative order. |
| HybridFacts.MergeIds | src/utils/recommendationEngine.ts:61-86 | The Map's order is the content ids in content order, then the ids only the collaborative strategy proposed, in collaborative order. |
| HybridFacts.HybridAfterContent | src/utils/recommendationEngine.ts:57-89 | Running the hybrid strategy again, on the catalog its first run left behind, gives the same recommendations. |
| HybridFacts.HybridRanked | src/utils/recommendationEngine.ts:86-88 | The hybrid result has `min(limit, Map size)` merged entries, one per movie, sorted by score. Nothing left out scores higher. Ties keep the Map's insertion order, which MergeIds states: content ids first, then collaborative-only ids. |
| HybridFacts.HybridEntries | src/utils/recommendationEngine.ts:57-89 | With distinct catalog ids, each hybrid entry is the blend of that movie's content and collaborative recommendations, both computed at twice the limit on the original catalog. |
| HybridFacts.HybridExcludesRated | src/utils/recommendationEngine.ts:57-89 | Every hybrid recommendation is a catalog movie the user has not rated. |
| Scoring.FindMovie | src/utils/recommendationEngine.ts:94 | Finds nothing exactly when no catalog movie has the id. Otherwise returns the first catalog movie with that id: no earlier movie has the id. |
| Scoring.RatedMovies | src/utils/recommendationEngine.ts:91-98 | The join is never longer than the rating list. RatedMoviesIsJoin states which entries it keeps. |
| Scoring.FindMovieInDistinctCatalog | src/utils/recommendationEngine.ts:94 | With distinct ids, finding a catalog movie's id returns that movie. |
| Scoring.RatedMoviesIsJoin | src/utils/recommendationEngine.ts:91-98 | The join keeps exactly the ratings of catalog movies, in rating order. Entry i carries the i-th such rating and a catalog movie with its id. |
| Scoring.RatedMoviesEmpty | src/utils/recommendationEngine.ts:91-98 | The join is empty exactly when no rating names a catalog movie. |
| Scoring.UnratedMovies | src/utils/recommendationEngine.ts:100-103 | A catalog movie is kept exactly when its id is not among the rated ids, known to the catalog or not. UnratedMoviesAppend and UnratedMoviesCount give its order and multiplicity. |
| Scoring.UnratedMoviesAppend | src/utils/recommendationEngine.ts:100-103 | The filter keeps catalog order: filtering a concatenation concatenates the filtered parts. |
| Scoring.UnratedMoviesCount | src/utils/recommendationEngine.ts:100-103 | An unrated movie is kept as many times as the catalog lists it, and a rated one is never kept. |
| Scoring.UnratedKeepsDistinct | src/utils/recommendationEngine.ts:100-103 | Filtering keeps catalog ids distinct. |
| Assoc.GetAbsent | src/utils/recommendationEngine.ts:117 | A missing key reads 0, the fallback of `get` used throughout the engine. |
| Assoc.SetGet | src/utils/recommendationEngine.ts:117 | After `set(k, v)`, `k` reads `v` and every other key reads as before. |
| Assoc.SetKeys | src/utils/recommendationEngine.ts:117 | `set` keeps the key order: a present key stays in place, and a new key goes last. |
| Assoc.AddAllGet | src/utils/recommendationEngine.ts:116-118 | Adding a weight under each listed key adds it once per occurrence. |
| Assoc.AddAllHas | src/utils/recommendationEngine.ts:116-118 | The keys after adding are the old keys plus the listed ones. |
| Scoring.CalculateUserPreferences | src/utils/recommendationEngine.ts:105-132 | The nested loops build exactly the four preference tallies, weighting each rated movie by `rating / 5`. |
| Scoring.AddEach | src/utils/recommendationEngine.ts:116-118 | The inner `forEach` adds the weight under each key in turn. |
| Scoring.TallyGet | src/utils/recommendationEngine.ts:113-129 | A preference map reads, under any key, the weights of the rated movies that list it, once per listing. |
| Scoring.TallyHas | src/utils/recommendationEngine.ts:113-129 | A preference map has a key exactly when some rated movie lists it. |
| Scoring.TallyKeysDistinct | src/utils/recommendationEngine.ts:113-129 | A preference map never holds a key twice. |
| Scoring.CalculateContentSimilarity | src/utils/recommendationEngine.ts:134-159 | The four accumulating loops plus the rating boost compute the content score. |
| Scoring.ContentScoreFormula | src/utils/recommendationEngine.ts:134-159 | The content score, stated from the ratings: genre weights, plus 2 × the director's weight, plus 1.5 × the cast weights, plus 0.5 × the tag weights, plus rating / 5. |
| Scoring.ContentScore | src/utils/recommendationEngine.ts:134-159 | The content score read off the preference maps, with no contract of its own; ContentScoreFormula states it from the ratings. |
| Scoring.SumOverTally | src/utils/recommendationEngine.ts:138-140 | Summing a preference map over keys sums the rated movies' weights for those keys. |
| Scoring.CalculateGenrePreferences | src/utils/recommendationEngine.ts:161-171 | The loops build the genre tally, weighting by the raw rating. |
| Scoring.CalculateCollaborativeScore | src/utils/recommendationEngine.ts:173-184 | The loop sums the genre scores of the movie's genres, then adds the movie's rating. |
| Scoring.CollaborativeScoreFormula | src/utils/recommendationEngine.ts:173-184 | The collaborative score, stated from the ratings: for each genre, the raw ratings of the rated movies listing it, plus the movie's rating. |
| Scoring.CollaborativeScore | src/utils/recommendationEngine.ts:173-184 | The collaborative score read off the genre map, with no contract of its own; CollaborativeScoreFormula states it from the ratings. |
| Scoring.FirstPresent | src/utils/recommendationEngine.ts:189 | `find(k => map.has(k))` finds nothing exactly when the map has none of the keys. Otherwise it returns the first listed key the map has: every key before it is absent. |
| Scoring.FirstPresentIsFirstListed | src/utils/recommendationEngine.ts:189 | The first of the movie's keys in the map is its first key that some rated movie lists. |
| Scoring.FirstListed | src/utils/recommendationEngine.ts:189 | Finds nothing exactly when no rated movie lists any of the keys. Otherwise it returns the first key some rated movie lists: no rated movie lists a key before it. |
| Scoring.ContentReason | src/utils/recommendationEngine.ts:186-200 | The reason is "highly rated film" exactly when there is no signal. With one signal it is that signal; with more, the first two joined by " and ". |
| Scoring.GenreSignalFromRatings | src/utils/recommendationEngine.ts:189-190 | The genre signal names the movie's first genre that some rated movie lists, unless that genre is empty (falsy). |
| Scoring.DirectorSignalFromRatings | src/utils/recommendationEngine.ts:192-194 | The director signal is present exactly when some rated movie has the same director. |
| Scoring.ActorSignalFromRatings | src/utils/recommendationEngine.ts:196-197 | The cast signal names the movie's first actor that some rated movie lists, unless that name is empty. |
| Scoring.TopGenresAreTop | src/utils/recommendationEngine.ts:203-206 | The top genres are two of the map's genres (fewer if it has fewer), and no other genre scores higher than one of them. |
| Scoring.TopGenres | src/utils/recommendationEngine.ts:203-206 | The two best-scored genre keys, with no contract of its own; TopGenresAreTop and TopGenresTies state which ones. |
| Scoring.TopGenresTies | src/utils/recommendationEngine.ts:203-206 | Among equally scored genres, the earliest inserted are the ones kept. |
| Scoring.MatchingGenres | src/utils/recommendationEngine.ts:208 | A genre is kept exactly when the movie lists it and it is a top genre. |
| Scoring.CollaborativeReason | src/utils/recommendationEngine.ts:202-215 | The reason is "trending with similar users" exactly when none of the movie's genres is a top genre. Otherwise it is "popular among fans of " followed by the matching genres, joined by " and ". |
| Scoring.MatchingGenresAppend | src/utils/recommendationEngine.ts:208 | The genre filter keeps the movie's genre order: filtering a concatenation concatenates the filtered parts. |
| StableSort.Sort | src/utils/recommendationEngine.ts:28 | The result is descending by key, a permutation of the input, and keeps every group of equal keys in input order. |
| StableSort.SortIsUnique | src/utils/recommendationEngine.ts:28 | Any two descending sequences whose equal-key groups agree are equal. So the stable sort's result is fully determined. |
| StableSort.SortIdempotent | src/utils/recommendationEngine.ts:219 | Sorting an already sorted sequence again changes nothing. |
| StableSort.TopN | src/utils/recommendationEngine.ts:28-29 | Sort then slice keeps `min(n, size)` input elements in descending order. Ties keep a prefix of their group, and nothing dropped ranks higher. |
| StableSort.TakeKeepsGroupPrefix | src/utils/recommendationEngine.ts:29 | Slicing keeps, for every key, a prefix of that key's group. |
| StableSort.TakeKeepsBest | src/utils/recommendationEngine.ts:29 | In a descending sequence, no element dropped by slicing ranks above one that is kept. |
| StableSort.SortKeepsDistinct | src/utils/recommendationEngine.ts:28 | Sorting keeps ids distinct. |
| RatingsHook.RecommendationsHook.constructor | src/hooks/useRecommendations.ts:7-12 | The hook starts with the saved ratings and the hybrid tab. |
| RatingsHook.RecommendationsHook.Recommendations | src/hooks/useRecommendations.ts:14-27 | A new engine over the shared catalog and the current ratings returns the active tab's strategy at limit 12. Content and hybrid leave the catalog as the content call does. |
| RatingsHook.TabRecommendationsSpec | src/hooks/useRecommendations.ts:18-27 | Whatever the tab, at most 12 recommendations come back, all of them catalog movies the user has not rated. |
| RatingsHook.RecommendationsRepeat | src/hooks/useRecommendations.ts:18-27 | Recomputing the active tab's recommendations on the catalog the first run left behind gives the same list, and leaves the catalog unchanged. |
| RatingsHook.RecommendationsHook.AddRating | src/hooks/useRecommendations.ts:29-38 | The rating list becomes the old one without the movie's ratings, followed by the new rating. The tab is unchanged. |
| RatingsHook.AddRatingSpec | src/hooks/useRecommendations.ts:29-38 | After `addRating`, the new rating is last and no earlier entry has its id. `getRating` returns it, the rated ids gain the movie, and one rating per movie is preserved. |
| RatingsHook.AddRatingKeepsOthers | src/hooks/useRecommendations.ts:29-38 | `addRating` does not change any other movie's rating. |
| RatingsHook.AddRatingKeepsOrder | src/hooks/useRecommendations.ts:30 | The other ratings keep their relative order. |
| RatingsHook.ReRatingReplaces | src/hooks/useRecommendations.ts:29-38 | Rating a movie twice is the same as rating it once with the second value and time. |
| RatingsHook.WithoutMovieMembers | src/hooks/useRecommendations.ts:30 | The filter keeps exactly the ratings of other movies. |
| RatingsHook.WithoutMovieKeepsOnePerMovie | src/hooks/useRecommendations.ts:30 | Filtering keeps at most one rating per movie. |
| RatingsHook.WithoutMovieIdempotent | src/hooks/useRecommendations.ts:30 | Filtering twice is filtering once. |
| RatingsHook.RatingOf | src/hooks/useRecommendations.ts:40-43 | Returns null exactly when the movie is not rated. Otherwise returns some stored rating of it. |
| RatingsHook.RatingOfFirst | src/hooks/useRecommendations.ts:41 | Returns the rating of the first entry for the movie. |
| RatingsHook.RecommendationsHook.GetRating | src/hooks/useRecommendations.ts:40-43 | Returns null exactly when the movie is not rated. Otherwise returns a stored rating of it. |
| RatingsHook.RecommendationsHook.GetRatedMovies | src/hooks/useRecommendations.ts:45-52 | The ratings of catalog movies, in order, each joined with a catalog movie of its id. Ratings of unknown ids are dropped. |
| RatingsHook.RecommendationsHook.SetActiveTab | src/hooks/useRecommendations.ts:12 | Sets the tab and leaves the ratings unchanged. |

## Left out

- React rendering and `useMemo` caching are not modelled. `Recommendations` recomputes on demand. The memo depends on the ratings and the tab, and also on the shared catalog's order, which the cold-start path changes. Recomputing gives the same value because sorting a sorted catalog again changes nothing (SortIdempotent) and the collaborative strategy ignores a rating sort (CollaborativeAfterContent). RecommendationsRepeat states the result for every tab.
- The hook's constructor does not run the first render's recommendations call. In the app, that call already sorts the shared catalog when the user starts cold.
- Reading and writing `localStorage`, and `JSON.parse` and `JSON.stringify`, are not modelled (useRecommendations.ts:8-9, 54-56). The constructor takes the saved ratings as a parameter.
- `Date.now()` is not modelled. `AddRating` takes the time as a parameter.
- IEEE double arithmetic is not modelled. Scores, ratings and weights are exact reals, so rounding, NaN and infinities cannot occur. As a result, the order in which the loops accumulate does not matter.
- Strategy limits are natural numbers. A negative or fractional `limit`, which `slice` would accept, is not modelled. The parameter defaults (`limit = 6`) are not modelled either, because every caller passes a limit.
- The sort is the stable sort that ES2019 requires. A comparator returning NaN is not modelled.
- In the hybrid pass, the `+=` updates act on the Map entry object, which the spread in the first pass created. The model replaces that entry with an updated value, and nothing else observes the object.
- HybridFacts.HybridEntries: states the blend against the strategies run on the original catalog only for catalogs with distinct movie ids. Without distinct ids, the Map's id key merges duplicate movies. HybridExcludesRated and HybridRanked need no such assumption.
- RatingsHook.RecommendationsHook.GetRating: states presence and that the value is a stored rating of the movie. That the value is the first such entry's rating is stated separately by RatingOfFirst.
- Scoring.TopGenresTies: orders equal-scored genres by their group in the genre map. The cut-off at two is stated by TopGenresAreTop.
- The UI components (App.tsx, MovieCard.tsx, UserProfile.tsx, RecommendationTabs.tsx) are not part of this model. The movie data (src/data/movies.ts) is not part of this model either: the catalog is any list of movies.
- Not checked: rating values in the 1-5 range, and ids that name no movie. The source checks neither. The join and the unrated filter handle unknown ids as the source does.
