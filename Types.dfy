/** The records the engine consumes and produces (src/types/index.ts). */
module Types {

  datatype Option<T> = None | Some(value: T)

  /** A catalog entry.  `rating` is the external 0-10 rating. */
  datatype Movie = Movie(
    id: string,
    title: string,
    genre: seq<string>,
    director: string,
    year: int,
    rating: real,
    duration: int,
    poster: string,
    description: string,
    cast: seq<string>,
    tags: seq<string>)

  /** One user's rating of one movie, on the 1-5 star scale. */
  datatype UserRating = UserRating(movieId: string, rating: real, timestamp: int)

  /** An engine result: a movie, its strategy-internal score and a reason. */
  datatype Recommendation = Recommendation(movie: Movie, score: real, reason: string)

  /** A rating joined with the catalog movie it names. */
  datatype RatedMovie = RatedMovie(movie: Movie, rating: real)

  /** The four movie attributes the content-based strategy learns from. */
  datatype Feature = Genre | Director | Actor | Tag

  /** The values a movie has for a feature, in the movie's own order. */
  function Features(m: Movie, f: Feature): seq<string> {
    match f
    case Genre => m.genre
    case Director => [m.director]
    case Actor => m.cast
    case Tag => m.tags
  }

  /** Sort keys: `b.rating - a.rating` and `b.score - a.score`. */
  function MovieRating(m: Movie): real { m.rating }

  function Score(r: Recommendation): real { r.score }

  /** The keys `find`, `Set` and the hybrid Map use. */
  function MovieId(m: Movie): string { m.id }

  function RecId(r: Recommendation): string { r.movie.id }

  /** The ids a rating list mentions. */
  function RatedIds(ratings: seq<UserRating>): set<string> {
    set i | 0 <= i < |ratings| :: ratings[i].movieId
  }
}
