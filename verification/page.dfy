/** The movie page: the presentational attributes, the tweet rating, the
    temporal series and the per-person breakdowns, each memoized on the movie
    record, with the record written back when anything was newly computed. */
module Page {
  import opened Wrappers
  import opened Text
  import opened Patterns
  import opened Scores
  import opened Records
  import opened Db
  import opened Aggregate
  import opened Temporal
  import opened Breakdown

  // ---------------------------------------------------------------- writes

  /** The movie writes of a write sequence, in order. */
  function MovieWrites(ws: seq<Write>): seq<Movie>
  {
    if |ws| == 0 then []
    else MovieWrites(ws[..|ws| - 1]) + (if ws[|ws| - 1].MovieWrite? then [ws[|ws| - 1].movie] else [])
  }

  /** The movie records after each write replaces the record with its id. */
  function ReplaceMovies(ms: seq<Movie>, writes: seq<Movie>): seq<Movie>
    decreases |writes|
  {
    if |writes| == 0 then ms else ReplaceMovies(ReplaceMovie(ms, writes[0]), writes[1..])
  }

  lemma {:induction false} ReplaceMoviesAppend(ms: seq<Movie>, a: seq<Movie>, b: seq<Movie>)
    ensures ReplaceMovies(ms, a + b) == ReplaceMovies(ReplaceMovies(ms, a), b)
    decreases |a|
  {
    if |a| == 0 {
      assert a + b == b;
    } else {
      assert (a + b)[0] == a[0] && (a + b)[1..] == a[1..] + b;
      ReplaceMoviesAppend(ReplaceMovie(ms, a[0]), a[1..], b);
    }
  }

  lemma {:induction false} MovieWritesAppend(a: seq<Write>, b: seq<Write>)
    ensures MovieWrites(a + b) == MovieWrites(a) + MovieWrites(b)
    decreases |b|
  {
    if |b| == 0 {
      assert a + b == a;
    } else {
      assert (a + b)[..|a + b| - 1] == a + b[..|b| - 1];
      MovieWritesAppend(a, b[..|b| - 1]);
    }
  }

  lemma {:induction false} TweetWritesNoMovie(ws: seq<Write>)
    requires TweetWritesOnly(ws)
    ensures MovieWrites(ws) == []
    decreases |ws|
  {
    if |ws| > 0 {
      TweetWritesNoMovie(ws[..|ws| - 1]);
    }
  }

  // ---------------------------------------------------------------- steps

  /** `get_movie_tweets`: the tweets about the movie, with no narrowing words. */
  function MovieTweets(ts: seq<Tweet>, limit: nat, title: string): (r: seq<Tweet>)
    ensures forall i :: 0 <= i < |r| ==> r[i] in ts && TitleMatch(title, r[i].text)
    ensures limit > 0 ==> |r| <= limit
    ensures limit == 0 ==> forall t :: t in ts && TitleMatch(title, t.text) ==> t in r
  {
    var found := Find(ts, limit, MovieQuery(title, []));
    assert forall i :: 0 <= i < |found| ==> TitleMatch(title, found[i].text) by {
      forall i | 0 <= i < |found| ensures TitleMatch(title, found[i].text) {
        TitleQueryMeans(title, found[i].text);
      }
    }
    assert limit == 0 ==> forall t :: t in ts && TitleMatch(title, t.text) ==> t in found by {
      forall t | limit == 0 && t in ts && TitleMatch(title, t.text) ensures t in found {
        TitleQueryMeans(title, t.text);
        MatchingComplete(ts, MovieQuery(title, []), t);
      }
    }
    found
  }

  /** The page data's attribute map: each key shows the record's attribute, or
      the sentinel when the record lacks it. */
  function Attributes(pairs: seq<(string, string)>, attrs: map<string, string>): (r: map<string, string>)
    ensures r.Keys == set i | 0 <= i < |pairs| :: pairs[i].0
  {
    if |pairs| == 0 then map[]
    else
      var r := Attributes(pairs[1..], attrs)[pairs[0].0 := if pairs[0].1 in attrs then attrs[pairs[0].1] else NoDataText];
      assert r.Keys == set i | 0 <= i < |pairs| :: pairs[i].0 by {
        forall k | k in set i | 0 <= i < |pairs| :: pairs[i].0 ensures k in r.Keys {
          var i :| 0 <= i < |pairs| && pairs[i].0 == k;
          if i > 0 {
            assert pairs[1..][i - 1] == pairs[i];
          }
        }
      }
      r
  }

  /** The movie's rating as it stands: the cached one, or the mean over its
      tweets, which is then stored on the movie. */
  function SentimentStep(m: Movie, ts: seq<Tweet>, limit: nat, oracle: Oracle): (Score, Movie)
  {
    if m.sentiment.Some? then (m.sentiment.value, m)
    else
      var s := Mean(Labels(MovieTweets(ts, limit, m.title), oracle));
      (s, m.(sentiment := Some(s)))
  }

  /** The immediate write of a newly computed rating. */
  function SentimentWrites(m: Movie, ts: seq<Tweet>, limit: nat, oracle: Oracle): seq<Movie>
  {
    if m.sentiment.None? then [SentimentStep(m, ts, limit, oracle).1] else []
  }

  /** `[get_imdb_score(float(v)) for v in ...]` over the ratings of a series. */
  function ScaledSeries(s: Series): (r: Series)
    ensures r.dates == s.dates && |r.ratings| == |s.ratings|
  {
    Series(s.dates, seq(|s.ratings|, i requires 0 <= i < |s.ratings| => ScaleValue(s.ratings[i])))
  }

  /** The temporal series as it stands: a cached series scaled, also on the
      record; a cached null raises; an absent one computed and stored unscaled. */
  function TemporalStep(m: Movie, ts: seq<Tweet>, limit: nat, oracle: Oracle): Result<(Option<Series>, Movie)>
  {
    match m.temporal
    case Some(None) => Err(NoTemporalCache)
    case Some(Some(series)) => Ok((Some(ScaledSeries(series)), m.(temporal := Some(Some(ScaledSeries(series))))))
    case None =>
      match TemporalOf(MovieTweets(ts, limit, m.title), oracle)
      case Err(e) => Err(e)
      case Ok(series) => Ok((series, m.(temporal := Some(series))))
  }

  /** The unscaled breakdown of a role: the cached list, the ratings of its
      credit string, or nothing for a movie without that credit. */
  function RawScores(m: Movie, role: Role, ts: seq<Tweet>, limit: nat, oracle: Oracle): seq<Entry>
  {
    match CachedScores(m, role)
    case Some(es) => es
    case None =>
      match Credits(m, role)
      case Some(people) => Ratings(ts, limit, m.title, people, oracle)
      case None => []
  }

  /** The breakdown shown and, through the shared list, stored on the record:
      both are the scaled list. */
  function RoleStep(m: Movie, role: Role, ts: seq<Tweet>, limit: nat, oracle: Oracle): (seq<Entry>, Movie)
  {
    var scaled := ScaledEntries(RawScores(m, role, ts, limit, oracle));
    (scaled, WithScores(m, role, scaled))
  }

  /** The three breakdowns in page order, and the record with all three stored. */
  function Breakdowns(m: Movie, ts: seq<Tweet>, limit: nat, oracle: Oracle): (seq<Entry>, seq<Entry>, seq<Entry>, Movie)
  {
    var (director, m1) := RoleStep(m, Director, ts, limit, oracle);
    var (writer, m2) := RoleStep(m1, Writer, ts, limit, oracle);
    var (actors, m3) := RoleStep(m2, Actors, ts, limit, oracle);
    (director, writer, actors, m3)
  }

  /** The movie record is written back when the series or a breakdown was computed. */
  predicate Dirty(m: Movie)
  {
    m.temporal.None? || m.directorScores.None? || m.writerScores.None? || m.actorsScores.None?
  }

  /** What composing the page of a movie returns and which movie records it
      writes, in order. */
  datatype Outcome = Outcome(result: Result<View>, writes: seq<Movie>)

  /** `get_movie_page_data` for a movie found in the store. */
  function Compose(m: Movie, ts: seq<Tweet>, limit: nat, oracle: Oracle): Outcome
  {
    var (s, m1) := SentimentStep(m, ts, limit, oracle);
    var early := SentimentWrites(m, ts, limit, oracle);
    match ImdbScore(s)
    case Err(e) => Outcome(Err(e), early)
    case Ok(rating) =>
      match TemporalStep(m1, ts, limit, oracle)
      case Err(e) => Outcome(Err(e), early)
      case Ok((temporal, m2)) =>
        var (director, writer, actors, m5) := Breakdowns(m2, ts, limit, oracle);
        var view := View(m.id, m.title, Attributes(Presentational, m.attrs), Num(rating), temporal, director, writer, actors);
        Outcome(Ok(view), early + if Dirty(m) then [m5] else [])
  }

  /** `get_movie_page_data`: a missing id raises before anything is written. */
  function PageOf(ms: seq<Movie>, ts: seq<Tweet>, limit: nat, id: int, oracle: Oracle): (r: Outcome)
    ensures FindMovie(ms, id).None? ==> r.result == Err(MissingMovie) && r.writes == []
    ensures r.result.Ok? ==> r.result.value.id == id
    ensures |r.writes| <= 2
    ensures forall i :: 0 <= i < |r.writes| ==> r.writes[i].id == id
  {
    match FindMovie(ms, id)
    case None => Outcome(Err(MissingMovie), [])
    case Some(m) => Compose(m, ts, limit, oracle)
  }

  // ---------------------------------------------------------------- store writes

  /** The writes of the rating step: when no rating is cached, the labels the
      movie's tweets newly cache, then the movie with its rating. */
  function SentimentLog(m: Movie, ts: seq<Tweet>, limit: nat, oracle: Oracle): seq<Write>
  {
    if m.sentiment.Some? then []
    else TweetWrites(Labelled(MovieTweets(ts, limit, m.title), oracle)) + [MovieWrite(SentimentStep(m, ts, limit, oracle).1)]
  }

  /** The writes of one breakdown: the labels its person queries cache when it
      is rated afresh, none when it is cached or the credit is missing. */
  function RoleLog(m: Movie, role: Role, ts: seq<Tweet>, limit: nat, oracle: Oracle): seq<Write>
  {
    if CachedScores(m, role).None? && Credits(m, role).Some?
    then RatingsWrites(ts, limit, m.title, Split(Credits(m, role).value, ','), oracle)
    else []
  }

  /** The writes of the three breakdowns, each run on the tweets as the one
      before it left them. */
  function PeopleLog(m: Movie, ts: seq<Tweet>, limit: nat, oracle: Oracle): seq<Write>
  {
    var m1 := RoleStep(m, Director, ts, limit, oracle).1;
    var m2 := RoleStep(m1, Writer, ts, limit, oracle).1;
    var l1 := RoleLog(m, Director, ts, limit, oracle);
    var l2 := RoleLog(m1, Writer, ApplyTweets(ts, l1), limit, oracle);
    var l3 := RoleLog(m2, Actors, ApplyTweets(ts, l1 + l2), limit, oracle);
    l1 + l2 + l3
  }

  /** Every write composing the page of a movie issues, in order: those of the
      rating, of the breakdowns, and the final write-back of the record. */
  function ComposeLog(m: Movie, ts: seq<Tweet>, limit: nat, oracle: Oracle): seq<Write>
  {
    var early := SentimentLog(m, ts, limit, oracle);
    var (s, m1) := SentimentStep(m, ts, limit, oracle);
    match ImdbScore(s)
    case Err(_) => early
    case Ok(_) =>
      match TemporalStep(m1, ts, limit, oracle)
      case Err(_) => early
      case Ok((_, m2)) =>
        var people := PeopleLog(m2, ApplyTweets(ts, early), limit, oracle);
        early + people + (if Dirty(m) then [MovieWrite(Breakdowns(m2, ts, limit, oracle).3)] else [])
  }

  /** Every write of `get_movie_page_data`: none for a missing id. */
  function PageLog(ms: seq<Movie>, ts: seq<Tweet>, limit: nat, id: int, oracle: Oracle): seq<Write>
  {
    match FindMovie(ms, id)
    case None => []
    case Some(m) => ComposeLog(m, ts, limit, oracle)
  }

  /** The tweets after a fresh rating's writes are the batch update of its labels. */
  lemma SentimentLogApplied(m: Movie, ts: seq<Tweet>, limit: nat, oracle: Oracle)
    requires m.sentiment.None?
    ensures ApplyTweets(ts, SentimentLog(m, ts, limit, oracle)) == ReplaceTweets(ts, Labelled(MovieTweets(ts, limit, m.title), oracle))
  {
    var us := Labelled(MovieTweets(ts, limit, m.title), oracle);
    ApplyTweetWrites(ts, us);
    ApplyTweetsMovieWrite(ts, TweetWrites(us), SentimentStep(m, ts, limit, oracle).1);
  }

  // ---------------------------------------------------------------- methods

  /** `get_movie_tweet_sentiment`: a newly computed rating caches the labels of
      the movie's tweets, is stored on the movie and the movie is written at once. */
  method MovieTweetSentiment(store: Store, movie: Movie, oracle: Oracle) returns (s: Score, updated: Movie)
    requires store.Valid()
    modifies store
    ensures store.Valid()
    ensures (s, updated) == SentimentStep(movie, old(store.tweets), store.limit, oracle)
    ensures SameTweets(store.tweets, old(store.tweets), oracle)
    ensures store.movies == ReplaceMovies(old(store.movies), SentimentWrites(movie, old(store.tweets), store.limit, oracle))
    ensures store.log == old(store.log) + SentimentLog(movie, old(store.tweets), store.limit, oracle)
    ensures store.tweets == ApplyTweets(old(store.tweets), SentimentLog(movie, old(store.tweets), store.limit, oracle))
  {
    if movie.sentiment.None? {
      var tweets := Find(store.tweets, store.limit, MovieQuery(movie.title, []));
      assert forall t :: t in tweets ==> t in Matching(store.tweets, MovieQuery(movie.title, []));
      s := TweetsSentiment(store, tweets, oracle);
      LabellingKeepsStore(old(store.tweets), tweets, oracle);
      updated := movie.(sentiment := Some(s));
      ghost var labels := TweetWrites(Labelled(tweets, oracle));
      store.MovieUpdateOne(updated);
      SentimentLogApplied(movie, old(store.tweets), store.limit, oracle);
      ConcatStep(old(store.log), labels, [MovieWrite(updated)], old(store.log) + labels, store.log);
    } else {
      s, updated := movie.sentiment.value, movie;
      assert store.log == old(store.log) + [];
    }
  }

  /** `get_temporal_movie_tweet_sentiment`: the series over the movie's tweets. */
  method TemporalMovieTweetSentiment(store: Store, movie: Movie, oracle: Oracle) returns (r: Result<Option<Series>>)
    ensures r == TemporalOf(MovieTweets(store.tweets, store.limit, movie.title), oracle)
  {
    var tweets := Find(store.tweets, store.limit, MovieQuery(movie.title, []));
    r := TemporalSentiment(tweets, oracle);
  }

  /** Lines 398-405: a cached series scaled in place, a cached null raising, or
      the series computed over the movie's tweets. */
  method TemporalScores(store: Store, movie: Movie, oracle: Oracle) returns (r: Result<(Option<Series>, Movie)>, newlyComputed: bool)
    ensures r == TemporalStep(movie, store.tweets, store.limit, oracle)
    ensures newlyComputed <==> movie.temporal.None?
  {
    newlyComputed := movie.temporal.None?;
    if movie.temporal.Some? {
      var cached := movie.temporal.value;
      if cached.None? {
        return Err(NoTemporalCache), newlyComputed;
      }
      var scaled := ScaledSeries(cached.value);
      r := Ok((Some(scaled), movie.(temporal := Some(Some(scaled)))));
    } else {
      var computed := TemporalMovieTweetSentiment(store, movie, oracle);
      if computed.Err? {
        return Err(computed.error), newlyComputed;
      }
      r := Ok((computed.value, movie.(temporal := Some(computed.value))));
    }
  }

  /** Lines 410-413: the cached list, or the ratings of the credit string. */
  method RawRoleScores(store: Store, movie: Movie, role: Role, oracle: Oracle) returns (people: seq<Entry>, newlyRated: bool)
    requires store.Valid()
    modifies store
    ensures store.Valid()
    ensures people == RawScores(movie, role, old(store.tweets), store.limit, oracle)
    ensures newlyRated <==> CachedScores(movie, role).None?
    ensures SameTweets(store.tweets, old(store.tweets), oracle)
    ensures store.movies == old(store.movies)
    ensures store.log == old(store.log) + RoleLog(movie, role, old(store.tweets), store.limit, oracle)
    ensures store.tweets == ApplyTweets(old(store.tweets), RoleLog(movie, role, old(store.tweets), store.limit, oracle))
  {
    assert store.log == store.log + [];
    match CachedScores(movie, role) {
      case Some(es) =>
        people, newlyRated := es, false;
      case None =>
        newlyRated := true;
        match Credits(movie, role) {
          case Some(credit) =>
            people := MoviePersonRating(store, movie, credit, oracle);
          case None =>
            people := [];
        }
    }
  }

  /** Lines 410-417 (and their copies for the writer and the actors): the
      cached or newly rated list, stored on the movie and scaled in place. */
  method RoleScores(store: Store, movie: Movie, role: Role, oracle: Oracle) returns (scaled: seq<Entry>, updated: Movie, newlyRated: bool)
    requires store.Valid()
    modifies store
    ensures store.Valid()
    ensures (scaled, updated) == RoleStep(movie, role, old(store.tweets), store.limit, oracle)
    ensures newlyRated <==> CachedScores(movie, role).None?
    ensures SameTweets(store.tweets, old(store.tweets), oracle)
    ensures store.movies == old(store.movies)
    ensures store.log == old(store.log) + RoleLog(movie, role, old(store.tweets), store.limit, oracle)
    ensures store.tweets == ApplyTweets(old(store.tweets), RoleLog(movie, role, old(store.tweets), store.limit, oracle))
  {
    var people;
    people, newlyRated := RawRoleScores(store, movie, role, oracle);
    var list := new Entry[|people|](i requires 0 <= i < |people| => people[i]);
    assert list[..] == people;
    UpdatePeopleScore(list);
    scaled := list[..];
    updated := WithScores(movie, role, scaled);
  }

  /** Lines 409-441: the director, writer and actors breakdowns in turn. */
  method PeopleScores(store: Store, movie: Movie, oracle: Oracle)
    returns (director: seq<Entry>, writer: seq<Entry>, actors: seq<Entry>, updated: Movie, newlyRated: bool)
    requires store.Valid()
    modifies store
    ensures store.Valid()
    ensures (director, writer, actors, updated) == Breakdowns(movie, old(store.tweets), store.limit, oracle)
    ensures newlyRated <==> movie.directorScores.None? || movie.writerScores.None? || movie.actorsScores.None?
    ensures SameTweets(store.tweets, old(store.tweets), oracle)
    ensures store.movies == old(store.movies)
    ensures store.log == old(store.log) + PeopleLog(movie, old(store.tweets), store.limit, oracle)
    ensures store.tweets == ApplyTweets(old(store.tweets), PeopleLog(movie, old(store.tweets), store.limit, oracle))
  {
    ghost var ts0, log0 := store.tweets, store.log;
    var rated;
    director, updated, newlyRated := RoleScores(store, movie, Director, oracle);
    ghost var l1 := RoleLog(movie, Director, ts0, store.limit, oracle);
    ghost var m1, before, logBefore := updated, store.tweets, store.log;
    writer, updated, rated := RoleScores(store, updated, Writer, oracle);
    newlyRated := newlyRated || rated;
    ghost var l2 := RoleLog(m1, Writer, before, store.limit, oracle);
    RoleStepSame(before, ts0, m1, Writer, store.limit, oracle);
    SameTweetsTransitive(store.tweets, before, ts0, oracle);
    ApplyTweetsAppend(ts0, l1, l2);
    ConcatStep(log0, l1, l2, logBefore, store.log);
    ghost var m2 := updated;
    before, logBefore := store.tweets, store.log;
    actors, updated, rated := RoleScores(store, updated, Actors, oracle);
    newlyRated := newlyRated || rated;
    ghost var l3 := RoleLog(m2, Actors, before, store.limit, oracle);
    RoleStepSame(before, ts0, m2, Actors, store.limit, oracle);
    SameTweetsTransitive(store.tweets, before, ts0, oracle);
    ApplyTweetsAppend(ts0, l1 + l2, l3);
    ConcatStep(log0, l1 + l2, l3, logBefore, store.log);
  }

  /** `get_movie_page_data` once the movie is found. */
  method ComposePage(store: Store, movie: Movie, oracle: Oracle) returns (r: Result<View>)
    requires store.Valid()
    modifies store
    ensures store.Valid()
    ensures r == Compose(movie, old(store.tweets), store.limit, oracle).result
    ensures SameTweets(store.tweets, old(store.tweets), oracle)
    ensures store.movies == ReplaceMovies(old(store.movies), Compose(movie, old(store.tweets), store.limit, oracle).writes)
    ensures store.log == old(store.log) + ComposeLog(movie, old(store.tweets), store.limit, oracle)
    ensures store.tweets == ApplyTweets(old(store.tweets), ComposeLog(movie, old(store.tweets), store.limit, oracle))
  {
    ghost var ts0, log0, m0 := store.tweets, store.log, movie;
    ghost var early := SentimentWrites(movie, ts0, store.limit, oracle);
    ghost var earlyLog := SentimentLog(movie, ts0, store.limit, oracle);
    var id, title := movie.id, movie.title;
    var attrs := Attributes(Presentational, movie.attrs);

    var sentiment, current := MovieTweetSentiment(store, movie, oracle);
    var rating := ImdbScore(sentiment);
    if rating.Err? {
      return Err(rating.error);
    }

    var step, newlyComputed := TemporalScores(store, current, oracle);
    TemporalStepSame(store.tweets, ts0, current, store.limit, oracle);
    if step.Err? {
      return Err(step.error);
    }
    var temporal := step.value.0;
    current := step.value.1;
    var dirty := newlyComputed;

    ghost var m2, before, logBefore := current, store.tweets, store.log;
    ghost var movies1 := store.movies;
    var director, writer, actors := FinishPage(store, current, dirty, oracle);
    BreakdownsSame(before, ts0, m2, store.limit, oracle);
    SameTweetsTransitive(store.tweets, before, ts0, oracle);
    ghost var people := PeopleLog(m2, before, store.limit, oracle);
    ghost var last := Breakdowns(m2, ts0, store.limit, oracle).3;
    ghost var tail := if Dirty(m0) then [MovieWrite(last)] else [];
    ApplyTweetsAppend(ts0, earlyLog, people);
    ConcatStep(log0, earlyLog, people, logBefore, logBefore + people);
    ConcatStep(log0, earlyLog + people, tail, logBefore + people, store.log);
    ReplaceMoviesAppend(old(store.movies), early, if Dirty(m0) then [last] else []);
    if Dirty(m0) {
      ApplyTweetsMovieWrite(ts0, earlyLog + people, last);
    } else {
      assert earlyLog + people + [] == earlyLog + people;
    }
    r := Ok(View(id, title, attrs, Num(rating.value), temporal, director, writer, actors));
  }

  /** Lines 409-444: the three breakdowns, then the record written back when
      anything on it was newly computed. */
  method FinishPage(store: Store, movie: Movie, dirty: bool, oracle: Oracle) returns (director: seq<Entry>, writer: seq<Entry>, actors: seq<Entry>)
    requires store.Valid()
    modifies store
    ensures store.Valid()
    ensures var (d, w, a, _) := Breakdowns(movie, old(store.tweets), store.limit, oracle);
            director == d && writer == w && actors == a
    ensures SameTweets(store.tweets, old(store.tweets), oracle)
    ensures var update := dirty || movie.directorScores.None? || movie.writerScores.None? || movie.actorsScores.None?;
            var last := Breakdowns(movie, old(store.tweets), store.limit, oracle).3;
            && store.movies == ReplaceMovies(old(store.movies), if update then [last] else [])
            && store.log == old(store.log) + PeopleLog(movie, old(store.tweets), store.limit, oracle) + (if update then [MovieWrite(last)] else [])
    ensures store.tweets == ApplyTweets(old(store.tweets), PeopleLog(movie, old(store.tweets), store.limit, oracle))
  {
    var current, rated;
    director, writer, actors, current, rated := PeopleScores(store, movie, oracle);
    if dirty || rated {
      ghost var movies1 := store.movies;
      store.MovieUpdateOne(current);
      assert ReplaceMovies(movies1, [current]) == ReplaceMovie(movies1, current);
    } else {
      assert store.log == store.log + [];
    }
  }

  /** `get_movie_page_data`: a missing id raises before anything is written. */
  method MoviePageData(store: Store, movieId: int, oracle: Oracle) returns (r: Result<View>)
    requires store.Valid()
    modifies store
    ensures store.Valid()
    ensures r == PageOf(old(store.movies), old(store.tweets), store.limit, movieId, oracle).result
    ensures SameTweets(store.tweets, old(store.tweets), oracle)
    ensures store.movies == ReplaceMovies(old(store.movies), PageOf(old(store.movies), old(store.tweets), store.limit, movieId, oracle).writes)
    ensures store.log == old(store.log) + PageLog(old(store.movies), old(store.tweets), store.limit, movieId, oracle)
    ensures store.tweets == ApplyTweets(old(store.tweets), PageLog(old(store.movies), old(store.tweets), store.limit, movieId, oracle))
  {
    var found := FindMovie(store.movies, movieId);
    if found.None? {
      assert store.log == store.log + [];
      return Err(MissingMovie);
    }
    r := ComposePage(store, found.value, oracle);
  }

  // ---------------------------------------------------------------- invariance

  lemma MovieTemporalSame(a: seq<Tweet>, b: seq<Tweet>, limit: nat, title: string, oracle: Oracle)
    requires SameTweets(a, b, oracle)
    ensures TemporalOf(MovieTweets(a, limit, title), oracle) == TemporalOf(MovieTweets(b, limit, title), oracle)
  {
    FindSame(a, b, limit, MovieQuery(title, []), oracle);
    TemporalIgnoresCache(MovieTweets(a, limit, title), MovieTweets(b, limit, title), oracle);
  }

  lemma TemporalStepSame(a: seq<Tweet>, b: seq<Tweet>, m: Movie, limit: nat, oracle: Oracle)
    requires SameTweets(a, b, oracle)
    ensures TemporalStep(m, a, limit, oracle) == TemporalStep(m, b, limit, oracle)
  {
    MovieTemporalSame(a, b, limit, m.title, oracle);
  }

  lemma RatingsSame(a: seq<Tweet>, b: seq<Tweet>, limit: nat, title: string, people: string, oracle: Oracle)
    requires SameTweets(a, b, oracle)
    ensures Ratings(a, limit, title, people, oracle) == Ratings(b, limit, title, people, oracle)
  {
    var pieces := Text.Split(people, ',');
    forall i | 0 <= i < |pieces| ensures PersonScore(a, limit, title, Text.LowerStr(pieces[i]), oracle) == PersonScore(b, limit, title, Text.LowerStr(pieces[i]), oracle) {
      PersonScoreSame(a, b, limit, title, Text.LowerStr(pieces[i]), oracle);
    }
  }

  lemma BreakdownsSame(a: seq<Tweet>, b: seq<Tweet>, m: Movie, limit: nat, oracle: Oracle)
    requires SameTweets(a, b, oracle)
    ensures Breakdowns(m, a, limit, oracle) == Breakdowns(m, b, limit, oracle)
  {
    RoleStepSame(a, b, m, Director, limit, oracle);
    var m1 := RoleStep(m, Director, a, limit, oracle).1;
    RoleStepSame(a, b, m1, Writer, limit, oracle);
    var m2 := RoleStep(m1, Writer, a, limit, oracle).1;
    RoleStepSame(a, b, m2, Actors, limit, oracle);
  }

  lemma RoleStepSame(a: seq<Tweet>, b: seq<Tweet>, m: Movie, role: Role, limit: nat, oracle: Oracle)
    requires SameTweets(a, b, oracle)
    ensures RoleStep(m, role, a, limit, oracle) == RoleStep(m, role, b, limit, oracle)
  {
    if CachedScores(m, role).None? && Credits(m, role).Some? {
      RatingsSame(a, b, limit, m.title, Credits(m, role).value, oracle);
    }
  }

  // ---------------------------------------------------------------- properties

  /** With distinct page keys, every key shows its record attribute or the sentinel. */
  lemma {:induction false} AttributesShown(pairs: seq<(string, string)>, attrs: map<string, string>, i: int)
    requires forall j, k :: 0 <= j < k < |pairs| ==> pairs[j].0 != pairs[k].0
    requires 0 <= i < |pairs|
    ensures Attributes(pairs, attrs)[pairs[i].0] == if pairs[i].1 in attrs then attrs[pairs[i].1] else NoDataText
    decreases |pairs|
  {
    if i > 0 {
      AttributesShown(pairs[1..], attrs, i - 1);
    }
  }

  /** The page shows the ten presentational attributes, each the record's value
      or '---' when the record lacks it. */
  lemma PresentationalDefaults(attrs: map<string, string>)
    ensures Attributes(Presentational, attrs).Keys == set i | 0 <= i < |Presentational| :: Presentational[i].0
    ensures forall i :: 0 <= i < |Presentational| ==>
              Attributes(Presentational, attrs)[Presentational[i].0] ==
              if Presentational[i].1 in attrs then attrs[Presentational[i].1] else NoDataText
  {
    var keys := seq(|Presentational|, i requires 0 <= i < |Presentational| => Presentational[i].0);
    assert keys == ["poster", "plot", "rated", "language", "country", "released", "year", "genre", "imdbVotes", "imdbRating"];
    assert forall j, k :: 0 <= j < k < |keys| ==> keys[j] != keys[k] by {
      forall j, k | 0 <= j < k < |keys| ensures keys[j] != keys[k] {
        assert keys[j][0] != keys[k][0] || |keys[j]| != |keys[k]|;
      }
    }
    forall i | 0 <= i < |Presentational|
      ensures Attributes(Presentational, attrs)[Presentational[i].0] ==
              if Presentational[i].1 in attrs then attrs[Presentational[i].1] else NoDataText
    {
      AttributesShown(Presentational, attrs, i);
    }
  }

  /** The rating is computed only when the record has none, and then from the
      movie's tweets; a cached rating is shown as it is. */
  lemma ComposeRating(m: Movie, ts: seq<Tweet>, limit: nat, oracle: Oracle)
    ensures m.sentiment == Some(NoData) ==> Compose(m, ts, limit, oracle) == Outcome(Err(NoDataScore), [])
    ensures m.sentiment.Some? && m.sentiment.value.Num? && Compose(m, ts, limit, oracle).result.Ok? ==>
              Compose(m, ts, limit, oracle).result.value.twitterRating == Num(ScaleValue(m.sentiment.value.x))
    ensures m.sentiment.None? && Compose(m, ts, limit, oracle).result.Ok? ==>
              Mean(Labels(MovieTweets(ts, limit, m.title), oracle)).Num? &&
              Compose(m, ts, limit, oracle).result.value.twitterRating == Num(ScaleValue(Mean(Labels(MovieTweets(ts, limit, m.title), oracle)).x))
  {
  }

  /** The series is computed only when the record has none, and then shown
      unscaled; a cached series is shown scaled; a cached null raises. */
  lemma ComposeTemporal(m: Movie, ts: seq<Tweet>, limit: nat, oracle: Oracle)
    ensures m.temporal.None? && Compose(m, ts, limit, oracle).result.Ok? ==>
              TemporalOf(MovieTweets(ts, limit, m.title), oracle) == Ok(Compose(m, ts, limit, oracle).result.value.temporal)
    ensures m.temporal.Some? && m.temporal.value.Some? && Compose(m, ts, limit, oracle).result.Ok? ==>
              Compose(m, ts, limit, oracle).result.value.temporal == Some(ScaledSeries(m.temporal.value.value))
    ensures m.temporal == Some(None) ==> Compose(m, ts, limit, oracle).result.Err?
  {
  }

  /** Each breakdown is computed only when the record has none: a cached list is
      shown scaled, an absent one is rated from the credit string, and a movie
      without that credit shows an empty list. */
  lemma ComposeBreakdown(m: Movie, ts: seq<Tweet>, limit: nat, oracle: Oracle, role: Role)
    requires Compose(m, ts, limit, oracle).result.Ok?
    ensures var view := Compose(m, ts, limit, oracle).result.value;
            var shown := match role case Director => view.director case Writer => view.writer case Actors => view.actors;
            && (CachedScores(m, role).Some? ==> shown == ScaledEntries(CachedScores(m, role).value))
            && (CachedScores(m, role).None? && Credits(m, role).Some? ==>
                  shown == ScaledEntries(Ratings(ts, limit, m.title, Credits(m, role).value, oracle)))
            && (CachedScores(m, role).None? && Credits(m, role).None? ==> shown == [])
  {
  }

  /** One write for a newly computed rating, issued first; one more, last, when
      the page completes and the series or a breakdown was newly computed. The
      last write holds all five cached results. */
  lemma ComposeWrites(m: Movie, ts: seq<Tweet>, limit: nat, oracle: Oracle)
    ensures var o := Compose(m, ts, limit, oracle);
            |o.writes| == (if m.sentiment.None? then 1 else 0) + (if o.result.Ok? && Dirty(m) then 1 else 0)
    ensures var o := Compose(m, ts, limit, oracle);
            m.sentiment.None? ==> o.writes[0] == m.(sentiment := Some(Mean(Labels(MovieTweets(ts, limit, m.title), oracle))))
    ensures var o := Compose(m, ts, limit, oracle);
            o.result.Ok? && Dirty(m) ==> Settled(o.writes[|o.writes| - 1])
    ensures forall w :: w in Compose(m, ts, limit, oracle).writes ==> w.id == m.id && w.title == m.title
  {
    var o := Compose(m, ts, limit, oracle);
    if o.result.Ok? && Dirty(m) {
      var m1 := SentimentStep(m, ts, limit, oracle).1;
      var m2 := TemporalStep(m1, ts, limit, oracle).value.1;
      BreakdownsSettle(m2, ts, limit, oracle);
    }
  }

  /** A record with all five results cached. */
  predicate Settled(m: Movie)
  {
    m.sentiment.Some? && m.temporal.Some? && m.directorScores.Some? && m.writerScores.Some? && m.actorsScores.Some?
  }

  lemma BreakdownsSettle(m: Movie, ts: seq<Tweet>, limit: nat, oracle: Oracle)
    ensures var (_, _, _, m3) := Breakdowns(m, ts, limit, oracle);
            m3.directorScores.Some? && m3.writerScores.Some? && m3.actorsScores.Some? &&
            m3.id == m.id && m3.title == m.title && m3.attrs == m.attrs &&
            m3.sentiment == m.sentiment && m3.temporal == m.temporal &&
            forall role :: Credits(m3, role) == Credits(m, role)
  {
  }

  /** With all five results cached the page reads no tweet and writes nothing. */
  lemma ComposeMemoized(m: Movie, a: seq<Tweet>, b: seq<Tweet>, limit: nat, oracle: Oracle)
    requires Settled(m)
    ensures Compose(m, a, limit, oracle) == Compose(m, b, limit, oracle)
    ensures Compose(m, a, limit, oracle).writes == []
  {
  }

  /** Rating a movie afresh caches the label of every one of its tweets that had
      none and leaves every other stored tweet as it was; a cached rating
      writes nothing. */
  lemma SentimentLogCaches(m: Movie, ts: seq<Tweet>, limit: nat, oracle: Oracle)
    requires DistinctTweetIds(ts)
    ensures m.sentiment.Some? ==> SentimentLog(m, ts, limit, oracle) == []
    ensures m.sentiment.None? ==>
              forall i :: 0 <= i < |ts| && ts[i] in MovieTweets(ts, limit, m.title) && ts[i].sentiment.None? ==>
                ApplyTweets(ts, SentimentLog(m, ts, limit, oracle))[i] == Classified(ts[i], oracle)
    ensures forall i :: 0 <= i < |ts| && (ts[i] !in MovieTweets(ts, limit, m.title) || ts[i].sentiment.Some?) ==>
              ApplyTweets(ts, SentimentLog(m, ts, limit, oracle))[i] == ts[i]
  {
    if m.sentiment.None? {
      var found := MovieTweets(ts, limit, m.title);
      assert forall t :: t in found ==> t in Matching(ts, MovieQuery(m.title, []));
      var labels := TweetWrites(Labelled(found, oracle));
      ApplyTweetsMovieWrite(ts, labels, SentimentStep(m, ts, limit, oracle).1);
      ApplyTweetWrites(ts, Labelled(found, oracle));
      LabellingCaches(ts, found, oracle);
    }
  }

  lemma {:induction false} TweetWritesOnlyNoMovie(us: seq<Tweet>)
    ensures MovieWrites(TweetWrites(us)) == []
  {
    TweetWritesNoMovie(TweetWrites(us));
  }

  lemma SingleMovieWrite(ws: seq<Write>, m: Movie)
    ensures MovieWrites(ws + [MovieWrite(m)]) == MovieWrites(ws) + [m]
  {
    assert (ws + [MovieWrite(m)])[..|ws|] == ws;
  }

  /** The breakdowns write no movie. */
  lemma PeopleLogNoMovie(m: Movie, ts: seq<Tweet>, limit: nat, oracle: Oracle)
    ensures MovieWrites(PeopleLog(m, ts, limit, oracle)) == []
  {
    var m1 := RoleStep(m, Director, ts, limit, oracle).1;
    var m2 := RoleStep(m1, Writer, ts, limit, oracle).1;
    var l1 := RoleLog(m, Director, ts, limit, oracle);
    var l2 := RoleLog(m1, Writer, ApplyTweets(ts, l1), limit, oracle);
    var l3 := RoleLog(m2, Actors, ApplyTweets(ts, l1 + l2), limit, oracle);
    RoleLogNoMovie(m, Director, ts, limit, oracle);
    RoleLogNoMovie(m1, Writer, ApplyTweets(ts, l1), limit, oracle);
    RoleLogNoMovie(m2, Actors, ApplyTweets(ts, l1 + l2), limit, oracle);
    MovieWritesAppend(l1, l2);
    MovieWritesAppend(l1 + l2, l3);
  }

  lemma RoleLogNoMovie(m: Movie, role: Role, ts: seq<Tweet>, limit: nat, oracle: Oracle)
    ensures MovieWrites(RoleLog(m, role, ts, limit, oracle)) == []
  {
    if CachedScores(m, role).None? && Credits(m, role).Some? {
      RatingsWritesTweetsOnly(ts, limit, m.title, Split(Credits(m, role).value, ','), oracle);
      TweetWritesNoMovie(RoleLog(m, role, ts, limit, oracle));
    }
  }

  /** The rating step's one movie write is the one `Compose` names. */
  lemma SentimentLogWrites(m: Movie, ts: seq<Tweet>, limit: nat, oracle: Oracle)
    ensures MovieWrites(SentimentLog(m, ts, limit, oracle)) == SentimentWrites(m, ts, limit, oracle)
  {
    if m.sentiment.None? {
      var labels := TweetWrites(Labelled(MovieTweets(ts, limit, m.title), oracle));
      TweetWritesOnlyNoMovie(Labelled(MovieTweets(ts, limit, m.title), oracle));
      SingleMovieWrite(labels, SentimentStep(m, ts, limit, oracle).1);
    }
  }

  /** The movie writes among all the writes of a composition are exactly the
      record writes `Compose` names, in order. */
  lemma ComposeLogWrites(m: Movie, ts: seq<Tweet>, limit: nat, oracle: Oracle)
    ensures MovieWrites(ComposeLog(m, ts, limit, oracle)) == Compose(m, ts, limit, oracle).writes
  {
    var early := SentimentLog(m, ts, limit, oracle);
    var sw := SentimentWrites(m, ts, limit, oracle);
    SentimentLogWrites(m, ts, limit, oracle);
    var (s, m1) := SentimentStep(m, ts, limit, oracle);
    var log, writes := ComposeLog(m, ts, limit, oracle), Compose(m, ts, limit, oracle).writes;
    if ImdbScore(s).Ok? && TemporalStep(m1, ts, limit, oracle).Ok? {
      var m2 := TemporalStep(m1, ts, limit, oracle).value.1;
      var people := PeopleLog(m2, ApplyTweets(ts, early), limit, oracle);
      var last := Breakdowns(m2, ts, limit, oracle).3;
      PeopleLogNoMovie(m2, ApplyTweets(ts, early), limit, oracle);
      MovieWritesAppend(early, people);
      assert MovieWrites(early + people) == sw;
      if Dirty(m) {
        assert log == early + people + [MovieWrite(last)];
        assert writes == sw + [last];
        SingleMovieWrite(early + people, last);
      } else {
        assert log == early + people + [];
        assert writes == sw + [];
        assert early + people + [] == early + people;
        assert sw + [] == sw;
      }
    } else {
      assert log == early;
      assert writes == sw;
    }
  }

  /** Every write of the page of a movie found by id, as `PageOf` names them. */
  lemma PageLogWrites(ms: seq<Movie>, ts: seq<Tweet>, limit: nat, id: int, oracle: Oracle)
    ensures MovieWrites(PageLog(ms, ts, limit, id, oracle)) == PageOf(ms, ts, limit, id, oracle).writes
  {
    if FindMovie(ms, id).Some? {
      ComposeLogWrites(FindMovie(ms, id).value, ts, limit, oracle);
    }
  }

  // ---------------------------------------------------------------- findings

  /** The record as stored after a composition: its last write, if any. */
  function Stored(m: Movie, writes: seq<Movie>): Movie
  {
    if |writes| == 0 then m else writes[|writes| - 1]
  }

  /** As written, the breakdowns stored by a composition are already scaled, so
      the next composition of the same movie scales them again: a score of the
      first page in [6, 10] is shown above 10 the second time, and a series
      computed fresh is shown scaled the second time only. */
  lemma RepeatedPageRescales(m: Movie, a: seq<Tweet>, b: seq<Tweet>, limit: nat, oracle: Oracle)
    requires Compose(m, a, limit, oracle).result.Ok? && Dirty(m)
    requires Compose(m, a, limit, oracle).result.value.temporal.Some?
    ensures var first := Compose(m, a, limit, oracle).result.value;
            var second := Compose(Stored(m, Compose(m, a, limit, oracle).writes), b, limit, oracle);
            && second.writes == []
            && second.result.Ok?
            && second.result.value.director == ScaledEntries(first.director)
            && second.result.value.writer == ScaledEntries(first.writer)
            && second.result.value.actors == ScaledEntries(first.actors)
            && (m.temporal.None? && first.temporal.Some? ==> second.result.value.temporal == Some(ScaledSeries(first.temporal.value)))
            && (forall i :: 0 <= i < |first.director| && first.director[i].score.Num? && first.director[i].score.x >= 6.0 ==>
                  second.result.value.director[i].score.x > 10.0)
  {
    var o := Compose(m, a, limit, oracle);
    ComposeWrites(m, a, limit, oracle);
    var first := o.result.value;
    var m1 := SentimentStep(m, a, limit, oracle).1;
    var m2 := TemporalStep(m1, a, limit, oracle).value.1;
    BreakdownsSettle(m2, a, limit, oracle);
    var stored := Stored(m, o.writes);
    assert stored == Breakdowns(m2, a, limit, oracle).3;
    assert stored.directorScores == Some(first.director);
    assert stored.writerScores == Some(first.writer);
    assert stored.actorsScores == Some(first.actors);
    assert stored.temporal == Some(first.temporal);
    forall i | 0 <= i < |first.director| && first.director[i].score.Num? && first.director[i].score.x >= 6.0
      ensures ScaledEntries(first.director)[i].score.x > 10.0
    {
      ScaleValueMoves(first.director[i].score.x);
    }
  }

  /** As written, a movie with no cached rating and no tweets about it raises,
      and the sentinel it stores first makes every later composition raise,
      whatever tweets arrive. */
  lemma NoDataRatingIsPermanent(m: Movie, a: seq<Tweet>, b: seq<Tweet>, limit: nat, oracle: Oracle)
    requires m.sentiment.None? && MovieTweets(a, limit, m.title) == []
    ensures Compose(m, a, limit, oracle) == Outcome(Err(NoDataScore), [m.(sentiment := Some(NoData))])
    ensures Compose(m.(sentiment := Some(NoData)), b, limit, oracle).result == Err(NoDataScore)
  {
    assert Labels([], oracle) == [];
  }

  /** The intended series handling: show the scaled copy, store the raw series,
      and show a stored null as no series. */
  function TemporalStepFixed(m: Movie, ts: seq<Tweet>, limit: nat, oracle: Oracle): Result<(Option<Series>, Movie)>
  {
    match m.temporal
    case Some(cached) => Ok((ScaledOption(cached), m))
    case None =>
      match TemporalOf(MovieTweets(ts, limit, m.title), oracle)
      case Err(e) => Err(e)
      case Ok(series) => Ok((ScaledOption(series), m.(temporal := Some(series))))
  }

  function ScaledOption(s: Option<Series>): Option<Series>
  {
    match s
    case None => None
    case Some(series) => Some(ScaledSeries(series))
  }

  /** The intended breakdowns: each shown scaled, each stored raw. */
  function BreakdownsFixed(m: Movie, ts: seq<Tweet>, limit: nat, oracle: Oracle): (seq<Entry>, seq<Entry>, seq<Entry>, Movie)
  {
    var director := RawScores(m, Director, ts, limit, oracle);
    var m1 := WithScores(m, Director, director);
    var writer := RawScores(m1, Writer, ts, limit, oracle);
    var m2 := WithScores(m1, Writer, writer);
    var actors := RawScores(m2, Actors, ts, limit, oracle);
    var m3 := WithScores(m2, Actors, actors);
    (ScaledEntries(director), ScaledEntries(writer), ScaledEntries(actors), m3)
  }

  /** The intended page: raw results are cached and only copies are scaled, and
      the sentinel rating is shown as it is instead of raising. */
  function ComposeFixed(m: Movie, ts: seq<Tweet>, limit: nat, oracle: Oracle): Outcome
  {
    var (s, m1) := SentimentStep(m, ts, limit, oracle);
    var early := SentimentWrites(m, ts, limit, oracle);
    match TemporalStepFixed(m1, ts, limit, oracle)
    case Err(e) => Outcome(Err(e), early)
    case Ok((temporal, m2)) =>
      var (director, writer, actors, m5) := BreakdownsFixed(m2, ts, limit, oracle);
      var view := View(m.id, m.title, Attributes(Presentational, m.attrs), ScaleScore(s), temporal, director, writer, actors);
      Outcome(Ok(view), early + if Dirty(m) then [m5] else [])
  }

  /** Corrected, a composition that completes leaves a record whose next
      composition shows the same page and writes nothing, whatever the tweets. */
  lemma ComposeFixedIdempotent(m: Movie, a: seq<Tweet>, b: seq<Tweet>, limit: nat, oracle: Oracle)
    requires ComposeFixed(m, a, limit, oracle).result.Ok?
    ensures ComposeFixed(Stored(m, ComposeFixed(m, a, limit, oracle).writes), b, limit, oracle) ==
            Outcome(ComposeFixed(m, a, limit, oracle).result, [])
  {
    var o := ComposeFixed(m, a, limit, oracle);
    var m1 := SentimentStep(m, a, limit, oracle).1;
    var m2 := TemporalStepFixed(m1, a, limit, oracle).value.1;
    var stored := Stored(m, o.writes);
    if Dirty(m) {
      assert stored == BreakdownsFixed(m2, a, limit, oracle).3;
    } else if m.sentiment.None? {
      assert stored == m1;
    }
  }

  /** Corrected, a movie with no tweets about it shows the sentinel rating. */
  lemma FixedShowsNoData(m: Movie, a: seq<Tweet>, limit: nat, oracle: Oracle)
    requires m.sentiment.None? && MovieTweets(a, limit, m.title) == []
    ensures ComposeFixed(m, a, limit, oracle).result.Ok?
    ensures ComposeFixed(m, a, limit, oracle).result.value.twitterRating == NoData
  {
    assert Labels([], oracle) == [];
  }
}
