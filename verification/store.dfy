/** The document store the engine reads and writes: tweets and movies in
    storage order, and the log of every update issued. */
module Db {
  import opened Wrappers
  import opened Patterns
  import opened Scores
  import opened Records

  /** The tweets a query selects, in storage order. */
  function Matching(ts: seq<Tweet>, q: Query): (r: seq<Tweet>)
    ensures |r| <= |ts|
    ensures forall i :: 0 <= i < |r| ==> r[i] in ts && Eval(q, r[i].text)
  {
    if |ts| == 0 then []
    else (if Eval(q, ts[0].text) then [ts[0]] else []) + Matching(ts[1..], q)
  }

  /** Every stored tweet the query accepts is selected. */
  lemma {:induction false} MatchingComplete(ts: seq<Tweet>, q: Query, t: Tweet)
    requires t in ts && Eval(q, t.text)
    ensures t in Matching(ts, q)
  {
    if ts[0] != t {
      MatchingComplete(ts[1..], q, t);
    }
  }

  /** `tweet_find_all`: the first `limit` matches in storage order; a limit of 0
      is no limit at all. */
  function Find(ts: seq<Tweet>, limit: nat, q: Query): (r: seq<Tweet>)
    ensures r <= Matching(ts, q)
    ensures limit == 0 ==> r == Matching(ts, q)
    ensures limit > 0 ==> |r| == if |Matching(ts, q)| <= limit then |Matching(ts, q)| else limit
  {
    var m := Matching(ts, q);
    if limit == 0 || |m| <= limit then m else m[..limit]
  }

  lemma SameTweetsAppend(a: seq<Tweet>, b: seq<Tweet>, c: seq<Tweet>, d: seq<Tweet>, oracle: Oracle)
    requires SameTweets(a, b, oracle) && SameTweets(c, d, oracle)
    ensures SameTweets(a + c, b + d, oracle)
  {
    forall i | 0 <= i < |a + c| ensures SameTweet((a + c)[i], (b + d)[i], oracle) {
      if i >= |a| {
        assert (a + c)[i] == c[i - |a|] && (b + d)[i] == d[i - |b|];
      }
    }
  }

  lemma {:induction false} MatchingSame(a: seq<Tweet>, b: seq<Tweet>, q: Query, oracle: Oracle)
    requires SameTweets(a, b, oracle)
    ensures SameTweets(Matching(a, q), Matching(b, q), oracle)
    decreases |a|
  {
    if |a| > 0 {
      assert SameTweet(a[0], b[0], oracle);
      var ha := if Eval(q, a[0].text) then [a[0]] else [];
      var hb := if Eval(q, b[0].text) then [b[0]] else [];
      assert SameTweets(ha, hb, oracle);
      assert SameTweets(a[1..], b[1..], oracle);
      MatchingSame(a[1..], b[1..], q, oracle);
      SameTweetsAppend(ha, hb, Matching(a[1..], q), Matching(b[1..], q), oracle);
    }
  }

  /** Caching labels in the store does not change what a query finds, up to
      the cached labels. */
  lemma FindSame(a: seq<Tweet>, b: seq<Tweet>, limit: nat, q: Query, oracle: Oracle)
    requires SameTweets(a, b, oracle)
    ensures SameTweets(Find(a, limit, q), Find(b, limit, q), oracle)
  {
    MatchingSame(a, b, q, oracle);
  }

  /** The update of one tweet by id: the first stored tweet with that id is replaced. */
  function ReplaceTweet(ts: seq<Tweet>, t: Tweet): (r: seq<Tweet>)
    ensures |r| == |ts|
    ensures forall i :: 0 <= i < |ts| ==> r[i].id == ts[i].id
    ensures DistinctTweetIds(ts) ==> forall i :: 0 <= i < |ts| ==> r[i] == if ts[i].id == t.id then t else ts[i]
  {
    if |ts| == 0 then []
    else if ts[0].id == t.id then [t] + ts[1..]
    else [ts[0]] + ReplaceTweet(ts[1..], t)
  }

  /** A sequence of tweet updates, applied in order. */
  function ReplaceTweets(ts: seq<Tweet>, us: seq<Tweet>): (r: seq<Tweet>)
    ensures |r| == |ts|
    ensures forall i :: 0 <= i < |ts| ==> r[i].id == ts[i].id
  {
    if |us| == 0 then ts else ReplaceTweet(ReplaceTweets(ts, us[..|us| - 1]), us[|us| - 1])
  }

  function TweetWrites(us: seq<Tweet>): (r: seq<Write>)
    ensures |r| == |us|
    ensures forall i :: 0 <= i < |us| ==> r[i] == TweetWrite(us[i])
  {
    seq(|us|, i requires 0 <= i < |us| => TweetWrite(us[i]))
  }

  /** The stored tweets once a sequence of writes has been applied in order;
      movie writes leave the tweets alone. */
  function ApplyTweets(ts: seq<Tweet>, ws: seq<Write>): (r: seq<Tweet>)
    ensures |r| == |ts|
    ensures forall i :: 0 <= i < |ts| ==> r[i].id == ts[i].id
    decreases |ws|
  {
    if |ws| == 0 then ts
    else
      var before := ApplyTweets(ts, ws[..|ws| - 1]);
      match ws[|ws| - 1]
      case TweetWrite(t) => ReplaceTweet(before, t)
      case MovieWrite(_) => before
  }

  lemma {:induction false} ApplyTweetsAppend(ts: seq<Tweet>, a: seq<Write>, b: seq<Write>)
    ensures ApplyTweets(ts, a + b) == ApplyTweets(ApplyTweets(ts, a), b)
    decreases |b|
  {
    if |b| == 0 {
      assert a + b == a;
    } else {
      assert (a + b)[..|a + b| - 1] == a + b[..|b| - 1];
      ApplyTweetsAppend(ts, a, b[..|b| - 1]);
    }
  }

  /** A movie write leaves the tweets as they were. */
  lemma ApplyTweetsMovieWrite(ts: seq<Tweet>, ws: seq<Write>, m: Movie)
    ensures ApplyTweets(ts, ws + [MovieWrite(m)]) == ApplyTweets(ts, ws)
  {
    assert (ws + [MovieWrite(m)])[..|ws|] == ws;
  }

  /** Applying the writes of a batch of tweet updates is the batch update. */
  lemma {:induction false} ApplyTweetWrites(ts: seq<Tweet>, us: seq<Tweet>)
    ensures ApplyTweets(ts, TweetWrites(us)) == ReplaceTweets(ts, us)
    decreases |us|
  {
    if |us| > 0 {
      assert TweetWrites(us)[..|us| - 1] == TweetWrites(us[..|us| - 1]);
      ApplyTweetWrites(ts, us[..|us| - 1]);
    }
  }

  /** A stored tweet whose id no update carries is kept. */
  lemma {:induction false} ReplaceTweetsUntouched(ts: seq<Tweet>, us: seq<Tweet>, i: int)
    requires DistinctTweetIds(ts) && 0 <= i < |ts|
    requires forall u :: u in us ==> u.id != ts[i].id
    ensures ReplaceTweets(ts, us)[i] == ts[i]
    decreases |us|
  {
    if |us| > 0 {
      ReplaceTweetsUntouched(ts, us[..|us| - 1], i);
      assert us[|us| - 1] in us;
      DistinctAfterReplace(ts, us[..|us| - 1]);
    }
  }

  /** A stored tweet whose id every update carrying it sets to `v` ends as `v`. */
  lemma {:induction false} ReplaceTweetsTo(ts: seq<Tweet>, us: seq<Tweet>, i: int, v: Tweet)
    requires DistinctTweetIds(ts) && 0 <= i < |ts|
    requires v in us && v.id == ts[i].id
    requires forall u :: u in us && u.id == ts[i].id ==> u == v
    ensures ReplaceTweets(ts, us)[i] == v
    decreases |us|
  {
    var init, last := us[..|us| - 1], us[|us| - 1];
    assert us == init + [last];
    DistinctAfterReplace(ts, init);
    if last.id != ts[i].id {
      assert v in init;
      ReplaceTweetsTo(ts, init, i, v);
    }
  }

  lemma DistinctAfterReplace(ts: seq<Tweet>, us: seq<Tweet>)
    requires DistinctTweetIds(ts)
    ensures DistinctTweetIds(ReplaceTweets(ts, us))
  {
    var r := ReplaceTweets(ts, us);
    forall a, b | 0 <= a < |r| && 0 <= b < |r| && r[a].id == r[b].id ensures a == b {
      assert ts[a].id == ts[b].id;
    }
  }

  /** The update of one movie by id. */
  function ReplaceMovie(ms: seq<Movie>, m: Movie): (r: seq<Movie>)
    ensures |r| == |ms|
    ensures forall i :: 0 <= i < |ms| ==> r[i].id == ms[i].id
  {
    if |ms| == 0 then []
    else if ms[0].id == m.id then [m] + ms[1..]
    else [ms[0]] + ReplaceMovie(ms[1..], m)
  }

  /** With distinct ids, the update replaces exactly the movie with that id. */
  lemma {:induction false} ReplaceMovieAt(ms: seq<Movie>, m: Movie, i: int)
    requires DistinctMovieIds(ms) && 0 <= i < |ms|
    ensures ReplaceMovie(ms, m)[i] == if ms[i].id == m.id then m else ms[i]
    decreases |ms|
  {
    if ms[0].id != m.id && i > 0 {
      ReplaceMovieAt(ms[1..], m, i - 1);
    }
  }

  /** `find_one({'_id': id})`. */
  function FindMovie(ms: seq<Movie>, id: int): (r: Option<Movie>)
    ensures r.Some? ==> r.value in ms && r.value.id == id
    ensures r.None? ==> forall i :: 0 <= i < |ms| ==> ms[i].id != id
  {
    if |ms| == 0 then None
    else if ms[0].id == id then Some(ms[0])
    else FindMovie(ms[1..], id)
  }

  /** `movie_find_all` on one credit field with the whole-word pattern of a
      name; a movie without that field never matches. */
  function Crediting(ms: seq<Movie>, role: Role, name: string): (r: seq<Movie>)
    ensures forall i :: 0 <= i < |r| ==> r[i] in ms && Credits(r[i], role).Some? && Eval(WordQuery(name), Credits(r[i], role).value)
  {
    if |ms| == 0 then []
    else
      var c := Credits(ms[0], role);
      (if c.Some? && Eval(WordQuery(name), c.value) then [ms[0]] else []) + Crediting(ms[1..], role, name)
  }

  class Store {
    var tweets: seq<Tweet>
    var movies: seq<Movie>
    var log: seq<Write>
    /** The configured `twitter_limit`. */
    const limit: nat

    ghost predicate Valid()
      reads this
    {
      DistinctTweetIds(tweets) && DistinctMovieIds(movies)
    }

    constructor (tweets: seq<Tweet>, movies: seq<Movie>, limit: nat)
      requires DistinctTweetIds(tweets) && DistinctMovieIds(movies)
      ensures Valid()
      ensures this.tweets == tweets && this.movies == movies && this.limit == limit && log == []
    {
      this.tweets, this.movies, this.limit, this.log := tweets, movies, limit, [];
    }

    /** `tweet_update_one`: one write. */
    method TweetUpdateOne(t: Tweet)
      requires Valid()
      modifies this
      ensures Valid()
      ensures tweets == ReplaceTweet(old(tweets), t)
      ensures movies == old(movies)
      ensures log == old(log) + [TweetWrite(t)]
    {
      tweets := ReplaceTweet(tweets, t);
      log := log + [TweetWrite(t)];
    }

    /** `tweet_update_all`: one write per tweet, in order, not a batch. */
    method TweetUpdateAll(us: seq<Tweet>)
      requires Valid()
      modifies this
      ensures Valid()
      ensures tweets == ReplaceTweets(old(tweets), us)
      ensures movies == old(movies)
      ensures log == old(log) + TweetWrites(us)
    {
      for i := 0 to |us|
        invariant Valid()
        invariant tweets == ReplaceTweets(old(tweets), us[..i])
        invariant movies == old(movies)
        invariant log == old(log) + TweetWrites(us[..i])
      {
        TweetUpdateOne(us[i]);
        assert us[..i + 1][..i] == us[..i];
        assert TweetWrites(us[..i + 1]) == TweetWrites(us[..i]) + [TweetWrite(us[i])];
      }
      assert us[..|us|] == us;
    }

    /** `movie_update_one`: one write of the whole record. */
    method MovieUpdateOne(m: Movie)
      requires Valid()
      modifies this
      ensures Valid()
      ensures movies == ReplaceMovie(old(movies), m)
      ensures tweets == old(tweets)
      ensures log == old(log) + [MovieWrite(m)]
    {
      movies := ReplaceMovie(movies, m);
      log := log + [MovieWrite(m)];
    }
  }
}
