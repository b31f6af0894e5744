/** The stored records: tweets with an optional cached label, and movies with
    optional presentational attributes and optional cached scores. */
module Records {
  import opened Wrappers
  import opened Scores
  import opened Times

  /** A tweet document; `sentiment` is the cached polarity, once computed. */
  datatype Tweet = Tweet(id: int, text: string, createdAt: string, sentiment: Option<real>)

  /** One `[name, score]` pair of a per-person breakdown. */
  datatype Entry = Entry(name: string, score: Score)

  /** The pair (dates, running means) of a temporal sentiment series. */
  datatype Series = Series(dates: seq<Instant>, ratings: seq<real>)

  /** The three credit lists of a movie. */
  datatype Role = Director | Writer | Actors

  /** A movie document. `attrs` holds the presentational attributes under their
      record keys; the other optional fields are the keys the engine tests with
      `in`. `temporal` is `Some(None)` when the stored series is null. */
  datatype Movie = Movie(
    id: int,
    title: string,
    attrs: map<string, string>,
    director: Option<string>,
    writer: Option<string>,
    actors: Option<string>,
    sentiment: Option<Score>,
    temporal: Option<Option<Series>>,
    directorScores: Option<seq<Entry>>,
    writerScores: Option<seq<Entry>>,
    actorsScores: Option<seq<Entry>>)

  /** The page data assembled for one movie. The rating is always a number as
      the page is written; the corrected composition can also show the sentinel. */
  datatype View = View(
    id: int,
    title: string,
    attrs: map<string, string>,
    twitterRating: Score,
    temporal: Option<Series>,
    director: seq<Entry>,
    writer: seq<Entry>,
    actors: seq<Entry>)

  /** One store write, in the order issued. */
  datatype Write = TweetWrite(tweet: Tweet) | MovieWrite(movie: Movie)

  /** The credit string of a role ('Director', 'Writer', 'Actors'). */
  function Credits(m: Movie, role: Role): Option<string>
  {
    match role
    case Director => m.director
    case Writer => m.writer
    case Actors => m.actors
  }

  /** The cached breakdown of a role ('director_sentiment', ...). */
  function CachedScores(m: Movie, role: Role): Option<seq<Entry>>
  {
    match role
    case Director => m.directorScores
    case Writer => m.writerScores
    case Actors => m.actorsScores
  }

  function WithScores(m: Movie, role: Role, es: seq<Entry>): (r: Movie)
    ensures CachedScores(r, role) == Some(es)
    ensures forall other :: other != role ==> CachedScores(r, other) == CachedScores(m, other)
    ensures r.id == m.id && r.title == m.title && r.attrs == m.attrs
    ensures forall ro :: Credits(r, ro) == Credits(m, ro)
    ensures r.sentiment == m.sentiment && r.temporal == m.temporal
  {
    match role
    case Director => m.(directorScores := Some(es))
    case Writer => m.(writerScores := Some(es))
    case Actors => m.(actorsScores := Some(es))
  }

  /** The presentational attributes: the key in the page data and the key in the movie record. */
  const Presentational: seq<(string, string)> := [
    ("poster", "Poster"), ("plot", "Plot"), ("rated", "Rated"), ("language", "Language"),
    ("country", "Country"), ("released", "Released"), ("year", "Year"), ("genre", "Genre"),
    ("imdbVotes", "imdbVotes"), ("imdbRating", "imdbRating")]

  /** The sentinel shown for a missing attribute. */
  const NoDataText: string := "---"

  /** The label a tweet contributes to a mean: the cached one, or the classifier's. */
  function Label(t: Tweet, oracle: Oracle): real
  {
    match t.sentiment
    case Some(l) => l
    case None => Sentiment(oracle, t.text)
  }

  /** Two tweets that differ at most in whether their label is cached yet. */
  predicate SameTweet(a: Tweet, b: Tweet, oracle: Oracle)
  {
    a.id == b.id && a.text == b.text && a.createdAt == b.createdAt && Label(a, oracle) == Label(b, oracle)
  }

  predicate SameTweets(a: seq<Tweet>, b: seq<Tweet>, oracle: Oracle)
  {
    |a| == |b| && forall i :: 0 <= i < |a| ==> SameTweet(a[i], b[i], oracle)
  }

  lemma SameTweetsTransitive(a: seq<Tweet>, b: seq<Tweet>, c: seq<Tweet>, oracle: Oracle)
    requires SameTweets(a, b, oracle) && SameTweets(b, c, oracle)
    ensures SameTweets(a, c, oracle)
  {
  }

  predicate DistinctTweetIds(ts: seq<Tweet>)
  {
    forall i, j :: 0 <= i < |ts| && 0 <= j < |ts| && ts[i].id == ts[j].id ==> i == j
  }

  predicate DistinctMovieIds(ms: seq<Movie>)
  {
    forall i, j :: 0 <= i < |ms| && 0 <= j < |ms| && ms[i].id == ms[j].id ==> i == j
  }
}
