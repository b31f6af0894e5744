/** The per-person breakdown of a movie's tweet score, and the index of the
    movies a person is credited in. */
module Breakdown {
  import opened Wrappers
  import opened Text
  import opened Patterns
  import opened Scores
  import opened Records
  import opened Db
  import opened Aggregate

  /** The tweets about the movie titled `title` that mention a word of `person`
      (every tweet about the movie when `person` has no words). */
  function PersonTweets(ts: seq<Tweet>, limit: nat, title: string, person: string): seq<Tweet>
  {
    Find(ts, limit, MovieQuery(title, Words(person)))
  }

  /** The score of one person in one movie, over the tweets as stored. */
  function PersonScore(ts: seq<Tweet>, limit: nat, title: string, person: string, oracle: Oracle): (r: Score)
    ensures r.NoData? <==> |PersonTweets(ts, limit, title, person)| == 0
    ensures CachedLabelsInRange(ts) && r.Num? ==> 0.0 <= r.x <= 1.0
  {
    var found := PersonTweets(ts, limit, title, person);
    assert CachedLabelsInRange(ts) ==> CachedLabelsInRange(found) by {
      forall k | 0 <= k < |found| && found[k].sentiment.Some? && CachedLabelsInRange(ts)
        ensures 0.0 <= found[k].sentiment.value <= 1.0
      {
        var j :| 0 <= j < |ts| && ts[j] == found[k];
      }
    }
    assert CachedLabelsInRange(found) ==> Mean(Labels(found, oracle)).Num? ==> 0.0 <= Mean(Labels(found, oracle)).x <= 1.0 by {
      if CachedLabelsInRange(found) {
        TweetsMeanBounds(found, oracle);
      }
    }
    Mean(Labels(found, oracle))
  }

  /** The writes that score issues: one per matched tweet that had no label. */
  function PersonWrites(ts: seq<Tweet>, limit: nat, title: string, person: string, oracle: Oracle): seq<Write>
  {
    TweetWrites(Labelled(PersonTweets(ts, limit, title, person), oracle))
  }

  /** Every comma-separated piece of a credit string, paired as written with the
      score of its lower-cased form. */
  function Ratings(ts: seq<Tweet>, limit: nat, title: string, people: string, oracle: Oracle): seq<Entry>
  {
    Scored(ts, limit, title, Split(people, ','), oracle)
  }

  /** Each name paired as written with the score of its lower-cased form. */
  function Scored(ts: seq<Tweet>, limit: nat, title: string, pieces: seq<string>, oracle: Oracle): (r: seq<Entry>)
    ensures |r| == |pieces|
    ensures forall i :: 0 <= i < |pieces| ==> r[i] == Entry(pieces[i], PersonScore(ts, limit, title, LowerStr(pieces[i]), oracle))
  {
    seq(|pieces|, i requires 0 <= i < |pieces| => Entry(pieces[i], PersonScore(ts, limit, title, LowerStr(pieces[i]), oracle)))
  }

  lemma ScoredStep(ts: seq<Tweet>, limit: nat, title: string, pieces: seq<string>, i: nat, oracle: Oracle)
    requires i < |pieces|
    ensures Scored(ts, limit, title, pieces[..i + 1], oracle) ==
            Scored(ts, limit, title, pieces[..i], oracle) + [Entry(pieces[i], PersonScore(ts, limit, title, LowerStr(pieces[i]), oracle))]
  {
  }

  /** The writes the ratings loop issues for `pieces`: each person's query runs
      on the tweets as the earlier pieces left them. */
  function RatingsWrites(ts: seq<Tweet>, limit: nat, title: string, pieces: seq<string>, oracle: Oracle): seq<Write>
    decreases |pieces|
  {
    if |pieces| == 0 then []
    else
      var before := RatingsWrites(ts, limit, title, pieces[..|pieces| - 1], oracle);
      before + PersonWrites(ApplyTweets(ts, before), limit, title, LowerStr(pieces[|pieces| - 1]), oracle)
  }

  /** The tweets and the log once the ratings loop has rated `pieces`. */
  predicate RatedSoFar(tweets: seq<Tweet>, log: seq<Write>, tweets0: seq<Tweet>, log0: seq<Write>,
                       limit: nat, title: string, pieces: seq<string>, oracle: Oracle)
  {
    log == log0 + RatingsWrites(tweets0, limit, title, pieces, oracle) &&
    tweets == ApplyTweets(tweets0, RatingsWrites(tweets0, limit, title, pieces, oracle))
  }

  lemma RatedSoFarStep(before: seq<Tweet>, logBefore: seq<Write>, after: seq<Tweet>, logAfter: seq<Write>,
                       tweets0: seq<Tweet>, log0: seq<Write>, limit: nat, title: string, pieces: seq<string>, i: nat, oracle: Oracle)
    requires i < |pieces|
    requires RatedSoFar(before, logBefore, tweets0, log0, limit, title, pieces[..i], oracle)
    requires logAfter == logBefore + PersonWrites(before, limit, title, LowerStr(pieces[i]), oracle)
    requires after == ApplyTweets(before, PersonWrites(before, limit, title, LowerStr(pieces[i]), oracle))
    ensures RatedSoFar(after, logAfter, tweets0, log0, limit, title, pieces[..i + 1], oracle)
  {
    var done := RatingsWrites(tweets0, limit, title, pieces[..i], oracle);
    var step := PersonWrites(before, limit, title, LowerStr(pieces[i]), oracle);
    RatingsWritesStep(tweets0, limit, title, pieces, i, oracle);
    ConcatStep(log0, done, step, logBefore, logAfter);
    ApplyTweetsAppend(tweets0, done, step);
  }

  lemma ConcatStep(log0: seq<Write>, done: seq<Write>, step: seq<Write>, logBefore: seq<Write>, logAfter: seq<Write>)
    requires logBefore == log0 + done && logAfter == logBefore + step
    ensures logAfter == log0 + (done + step)
  {
  }

  lemma RatingsWritesStep(ts: seq<Tweet>, limit: nat, title: string, pieces: seq<string>, i: nat, oracle: Oracle)
    requires i < |pieces|
    ensures RatingsWrites(ts, limit, title, pieces[..i + 1], oracle) ==
            RatingsWrites(ts, limit, title, pieces[..i], oracle) +
            PersonWrites(ApplyTweets(ts, RatingsWrites(ts, limit, title, pieces[..i], oracle)), limit, title, LowerStr(pieces[i]), oracle)
  {
    assert pieces[..i + 1][..i] == pieces[..i];
  }

  predicate TweetWritesOnly(ws: seq<Write>)
  {
    forall i :: 0 <= i < |ws| ==> ws[i].TweetWrite?
  }

  /** Rating people writes tweets only, never a movie. */
  lemma {:induction false} RatingsWritesTweetsOnly(ts: seq<Tweet>, limit: nat, title: string, pieces: seq<string>, oracle: Oracle)
    ensures TweetWritesOnly(RatingsWrites(ts, limit, title, pieces, oracle))
    decreases |pieces|
  {
    if |pieces| > 0 {
      RatingsWritesTweetsOnly(ts, limit, title, pieces[..|pieces| - 1], oracle);
    }
  }

  /** Cached labels, like the classifier's, are 0 or 1. */
  predicate CachedLabelsInRange(ts: seq<Tweet>)
  {
    forall i :: 0 <= i < |ts| ==> ts[i].sentiment.Some? ==> 0.0 <= ts[i].sentiment.value <= 1.0
  }

  /** `get_movie_person_tweet_sentiment`: the mean label of the movie's tweets
      that mention a word of the person; new labels are written back. */
  method MoviePersonTweetSentiment(store: Store, movie: Movie, person: string, oracle: Oracle) returns (s: Score)
    requires store.Valid()
    modifies store
    ensures store.Valid()
    ensures s == PersonScore(old(store.tweets), store.limit, movie.title, person, oracle)
    ensures SameTweets(store.tweets, old(store.tweets), oracle)
    ensures store.movies == old(store.movies)
    ensures store.log == old(store.log) + PersonWrites(old(store.tweets), store.limit, movie.title, person, oracle)
    ensures store.tweets == ApplyTweets(old(store.tweets), PersonWrites(old(store.tweets), store.limit, movie.title, person, oracle))
  {
    var tweets := Find(store.tweets, store.limit, MovieQuery(movie.title, Words(person)));
    assert forall t :: t in tweets ==> t in Matching(store.tweets, MovieQuery(movie.title, Words(person)));
    s := TweetsSentiment(store, tweets, oracle);
    LabellingKeepsStore(old(store.tweets), tweets, oracle);
    ApplyTweetWrites(old(store.tweets), Labelled(tweets, oracle));
  }

  /** Scoring a person caches the label of every matched tweet that had none
      and leaves every other stored tweet as it was. */
  lemma PersonWritesCache(ts: seq<Tweet>, limit: nat, title: string, person: string, oracle: Oracle)
    requires DistinctTweetIds(ts)
    ensures forall i :: 0 <= i < |ts| && ts[i] in PersonTweets(ts, limit, title, person) && ts[i].sentiment.None? ==>
              ApplyTweets(ts, PersonWrites(ts, limit, title, person, oracle))[i] == Classified(ts[i], oracle)
    ensures forall i :: 0 <= i < |ts| && (ts[i] !in PersonTweets(ts, limit, title, person) || ts[i].sentiment.Some?) ==>
              ApplyTweets(ts, PersonWrites(ts, limit, title, person, oracle))[i] == ts[i]
  {
    var found := PersonTweets(ts, limit, title, person);
    assert forall t :: t in found ==> t in Matching(ts, MovieQuery(title, Words(person)));
    ApplyTweetWrites(ts, Labelled(found, oracle));
    LabellingCaches(ts, found, oracle);
  }

  /** Scores depend on the tweets only up to `SameTweets`. */
  lemma PersonScoreSame(a: seq<Tweet>, b: seq<Tweet>, limit: nat, title: string, person: string, oracle: Oracle)
    requires SameTweets(a, b, oracle)
    ensures PersonScore(a, limit, title, person, oracle) == PersonScore(b, limit, title, person, oracle)
  {
    FindSame(a, b, limit, MovieQuery(title, Words(person)), oracle);
    LabelsSame(PersonTweets(a, limit, title, person), PersonTweets(b, limit, title, person), oracle);
  }

  /** `get_movie_person_raiting`: one pair per comma-separated piece. Labels
      written for earlier pieces do not change the scores of later ones. */
  method MoviePersonRating(store: Store, movie: Movie, people: string, oracle: Oracle) returns (entries: seq<Entry>)
    requires store.Valid()
    modifies store
    ensures store.Valid()
    ensures entries == Ratings(old(store.tweets), store.limit, movie.title, people, oracle)
    ensures SameTweets(store.tweets, old(store.tweets), oracle)
    ensures store.movies == old(store.movies)
    ensures store.log == old(store.log) + RatingsWrites(old(store.tweets), store.limit, movie.title, Split(people, ','), oracle)
    ensures store.tweets == ApplyTweets(old(store.tweets), RatingsWrites(old(store.tweets), store.limit, movie.title, Split(people, ','), oracle))
  {
    ghost var tweets0, log0 := store.tweets, store.log;
    entries := [];
    var pieces := Split(people, ',');
    for i := 0 to |pieces|
      invariant store.Valid()
      invariant SameTweets(store.tweets, tweets0, oracle)
      invariant store.movies == old(store.movies)
      invariant RatedSoFar(store.tweets, store.log, tweets0, log0, store.limit, movie.title, pieces[..i], oracle)
      invariant entries == Scored(tweets0, store.limit, movie.title, pieces[..i], oracle)
    {
      var person := pieces[i];
      ghost var before, logBefore := store.tweets, store.log;
      var score := RatePiece(store, movie, person, tweets0, oracle);
      RatedSoFarStep(before, logBefore, store.tweets, store.log, tweets0, log0, store.limit, movie.title, pieces, i, oracle);
      ScoredStep(tweets0, store.limit, movie.title, pieces, i, oracle);
      entries := entries + [Entry(person, score)];
    }
    assert pieces[..|pieces|] == pieces;
  }

  /** Line 356 for one piece: the lower-cased name's score, which is its score
      over the tweets as they stood before the loop, and the label writes. */
  method RatePiece(store: Store, movie: Movie, person: string, ghost tweets0: seq<Tweet>, oracle: Oracle)
    returns (score: Score)
    requires store.Valid()
    requires SameTweets(store.tweets, tweets0, oracle)
    modifies store
    ensures store.Valid()
    ensures score == PersonScore(tweets0, store.limit, movie.title, LowerStr(person), oracle)
    ensures SameTweets(store.tweets, tweets0, oracle)
    ensures store.movies == old(store.movies)
    ensures store.log == old(store.log) + PersonWrites(old(store.tweets), store.limit, movie.title, LowerStr(person), oracle)
    ensures store.tweets == ApplyTweets(old(store.tweets), PersonWrites(old(store.tweets), store.limit, movie.title, LowerStr(person), oracle))
  {
    score := MoviePersonTweetSentiment(store, movie, LowerStr(person), oracle);
    PersonScoreSame(old(store.tweets), tweets0, store.limit, movie.title, LowerStr(person), oracle);
    SameTweetsTransitive(store.tweets, old(store.tweets), tweets0, oracle);
  }

  /** One piece per comma-separated name, in order, named exactly as written;
      a score is the sentinel exactly when no tweet matched, and lies in [0, 1]
      otherwise. */
  lemma RatingsShape(ts: seq<Tweet>, limit: nat, title: string, people: string, oracle: Oracle)
    requires CachedLabelsInRange(ts)
    ensures var r := Ratings(ts, limit, title, people, oracle);
            && |r| == |Split(people, ',')|
            && Join(seq(|r|, i requires 0 <= i < |r| => r[i].name), ',') == people
            && (forall i :: 0 <= i < |r| ==> (r[i].score.NoData? <==> |PersonTweets(ts, limit, title, LowerStr(r[i].name))| == 0))
            && (forall i :: 0 <= i < |r| ==> r[i].score.Num? ==> 0.0 <= r[i].score.x <= 1.0)
  {
    var r := Ratings(ts, limit, title, people, oracle);
    assert seq(|r|, i requires 0 <= i < |r| => r[i].name) == Split(people, ',');
    JoinSplit(people, ',');
  }

  /** A tweet counts toward a person exactly when it is about the movie and, if
      the name has words, mentions at least one of them as a whole word. */
  lemma PersonTweetsMeans(ts: seq<Tweet>, title: string, person: string, t: Tweet)
    requires t in ts
    ensures t in PersonTweets(ts, 0, title, person) <==>
            TitleMatch(title, t.text) && (Words(person) == [] || exists i :: 0 <= i < |Words(person)| && HasWord(t.text, Words(person)[i]))
  {
    MovieQueryMeans(title, Words(person), t.text);
    if Eval(MovieQuery(title, Words(person)), t.text) {
      MatchingComplete(ts, MovieQuery(title, Words(person)), t);
    }
  }

  // ---------------------------------------------------------------- scaling

  /** `get_imdb_score` of a score, the sentinel passed through. */
  function ScaleEntry(e: Entry): Entry
  {
    Entry(e.name, ScaleScore(e.score))
  }

  function ScaledEntries(es: seq<Entry>): (r: seq<Entry>)
    ensures |r| == |es|
    ensures forall i :: 0 <= i < |r| ==> r[i].name == es[i].name && (r[i].score.NoData? <==> es[i].score.NoData?)
    ensures forall i :: 0 <= i < |r| ==> es[i].score.Num? && 0.0 <= es[i].score.x <= 1.0 ==> 6.0 <= r[i].score.x <= 10.0
  {
    seq(|es|, i requires 0 <= i < |es| => ScaleEntry(es[i]))
  }

  /** `update_people_score`: every score of the list rescaled in place. */
  method UpdatePeopleScore(people: array<Entry>)
    modifies people
    ensures people[..] == ScaledEntries(old(people[..]))
  {
    for i := 0 to people.Length
      invariant forall j :: 0 <= j < i ==> people[j] == ScaleEntry(old(people[j]))
      invariant forall j :: i <= j < people.Length ==> people[j] == old(people[j])
    {
      var score := people[i].score;
      people[i] := Entry(people[i].name, if score != NoData then Num(ScaleValue(score.x)) else NoData);
    }
  }

  /** Scaling keeps the length, every name and every sentinel, and sends scores
      in [0, 1] into [6, 10]. */
  // ---------------------------------------------------------------- movies of a person

  /** A dictionary from title to id filled in order: a later movie with the same
      title overwrites an earlier one. */
  function IndexByTitle(ms: seq<Movie>): (r: map<string, int>)
    ensures r.Keys == set i | 0 <= i < |ms| :: ms[i].title
  {
    if |ms| == 0 then map[]
    else
      var last := ms[|ms| - 1];
      var r := IndexByTitle(ms[..|ms| - 1])[last.title := last.id];
      assert r.Keys == set i | 0 <= i < |ms| :: ms[i].title by {
        forall k | k in set i | 0 <= i < |ms| :: ms[i].title ensures k in r.Keys {
          var i :| 0 <= i < |ms| && ms[i].title == k;
          if i < |ms| - 1 {
            assert ms[..|ms| - 1][i] == ms[i];
          }
        }
      }
      r
  }

  /** The loop `for m in movies: d[m['Title']] = m['_id']`. */
  method IndexMovies(ms: seq<Movie>) returns (index: map<string, int>)
    ensures index == IndexByTitle(ms)
  {
    index := map[];
    for i := 0 to |ms|
      invariant index == IndexByTitle(ms[..i])
    {
      assert ms[..i + 1][..i] == ms[..i];
      index := index[ms[i].title := ms[i].id];
    }
    assert ms[..|ms|] == ms;
  }

  /** `get_movies_involving_person`: the movies crediting the person as an
      actor, a writer and a director, each indexed by title. */
  method MoviesInvolvingPerson(store: Store, name: string) returns (actors: map<string, int>, writers: map<string, int>, directors: map<string, int>)
    ensures actors == IndexByTitle(Crediting(store.movies, Actors, name))
    ensures writers == IndexByTitle(Crediting(store.movies, Writer, name))
    ensures directors == IndexByTitle(Crediting(store.movies, Director, name))
  {
    var actorMovies := Crediting(store.movies, Actors, name);
    var writerMovies := Crediting(store.movies, Writer, name);
    var directorMovies := Crediting(store.movies, Director, name);
    actors := IndexMovies(actorMovies);
    writers := IndexMovies(writerMovies);
    directors := IndexMovies(directorMovies);
  }

  /** Each title maps to the id of the last movie with that title. */
  lemma {:induction false} IndexByTitleLast(ms: seq<Movie>, k: string)
    requires k in IndexByTitle(ms)
    ensures exists j :: 0 <= j < |ms| && ms[j].title == k && IndexByTitle(ms)[k] == ms[j].id &&
                        forall l :: j < l < |ms| ==> ms[l].title != k
    decreases |ms|
  {
    var last := ms[|ms| - 1];
    if last.title != k {
      var init := ms[..|ms| - 1];
      IndexByTitleLast(init, k);
      var j :| 0 <= j < |init| && init[j].title == k && IndexByTitle(init)[k] == init[j].id &&
               forall l :: j < l < |init| ==> init[l].title != k;
      assert ms[j] == init[j];
      forall l | j < l < |ms| ensures ms[l].title != k {
        if l < |ms| - 1 {
          assert ms[l] == init[l];
        }
      }
    }
  }

  /** A movie is listed for a role exactly when it has that credit and the
      credit names the person as a whole word. */
  lemma {:induction false} CreditingMeans(ms: seq<Movie>, role: Role, name: string, m: Movie)
    ensures m in Crediting(ms, role, name) <==>
            m in ms && Credits(m, role).Some? && HasWord(Credits(m, role).value, name)
    decreases |ms|
  {
    if Credits(m, role).Some? {
      WordQueryMeans(name, Credits(m, role).value);
    }
    if |ms| > 0 {
      CreditingMeans(ms[1..], role, name, m);
      assert ms == [ms[0]] + ms[1..];
    }
  }
}
