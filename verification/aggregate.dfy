/** The instant mean sentiment of a tweet set, with the per-tweet label cache. */
module Aggregate {
  import opened Wrappers
  import opened Scores
  import opened Records
  import opened Db

  /** The label each tweet contributes, in order. */
  function Labels(ts: seq<Tweet>, oracle: Oracle): (r: seq<real>)
    ensures |r| == |ts|
    ensures forall i :: 0 <= i < |ts| ==> r[i] == Label(ts[i], oracle)
  {
    seq(|ts|, i requires 0 <= i < |ts| => Label(ts[i], oracle))
  }

  /** Left-to-right sum, the order in which the loop accumulates. */
  function Sum(xs: seq<real>): real
  {
    if |xs| == 0 then 0.0 else Sum(xs[..|xs| - 1]) + xs[|xs| - 1]
  }

  /** The mean, or the sentinel for no values. */
  function Mean(xs: seq<real>): Score
  {
    if |xs| == 0 then NoData else Num(Sum(xs) / |xs| as real)
  }

  /** A tweet with the classifier's label attached. */
  function Classified(t: Tweet, oracle: Oracle): Tweet
  {
    t.(sentiment := Some(Sentiment(oracle, t.text)))
  }

  /** The tweets that had no cached label, each now labelled, in their order. */
  function Labelled(ts: seq<Tweet>, oracle: Oracle): seq<Tweet>
  {
    if |ts| == 0 then []
    else
      var last := ts[|ts| - 1];
      Labelled(ts[..|ts| - 1], oracle) + (if last.sentiment.None? then [Classified(last, oracle)] else [])
  }

  /** Lines 259-270 of `get_tweets_sentiment`: one pass over the tweets that
      counts them, sums their labels and collects the newly labelled ones. */
  method SentimentPass(tweets: seq<Tweet>, oracle: Oracle) returns (sum: real, count: nat, updates: seq<Tweet>)
    ensures count == |tweets|
    ensures sum == Sum(Labels(tweets, oracle))
    ensures updates == Labelled(tweets, oracle)
  {
    updates, sum, count := [], 0.0, 0;
    for i := 0 to |tweets|
      invariant count == i
      invariant sum == Sum(Labels(tweets[..i], oracle))
      invariant updates == Labelled(tweets[..i], oracle)
    {
      var tweet := tweets[i];
      assert tweets[..i + 1][..i] == tweets[..i];
      assert Labels(tweets[..i + 1], oracle)[..i] == Labels(tweets[..i], oracle);
      count := count + 1;
      if tweet.sentiment.None? {
        var sentiment := Sentiment(oracle, tweet.text);
        tweet := tweet.(sentiment := Some(sentiment));
        updates := updates + [tweet];
        sum := sum + sentiment;
      } else {
        sum := sum + tweet.sentiment.value;
      }
    }
    assert tweets[..|tweets|] == tweets;
  }

  /** `get_tweets_sentiment`: the mean label of the tweets, the cached label
      where there is one; the newly labelled tweets are written one by one. */
  method TweetsSentiment(store: Store, tweets: seq<Tweet>, oracle: Oracle) returns (s: Score)
    requires store.Valid()
    modifies store
    ensures store.Valid()
    ensures s == Mean(Labels(tweets, oracle))
    ensures store.tweets == ReplaceTweets(old(store.tweets), Labelled(tweets, oracle))
    ensures store.movies == old(store.movies)
    ensures store.log == old(store.log) + TweetWrites(Labelled(tweets, oracle))
  {
    var sum, count, updates := SentimentPass(tweets, oracle);
    if |updates| > 1 {
      store.TweetUpdateAll(updates);
    } else if |updates| > 0 {
      store.TweetUpdateOne(updates[0]);
      assert updates[..0] == [];
    }
    s := if count > 0 then Num(sum / count as real) else NoData;
  }

  // ---------------------------------------------------------------- properties

  lemma {:induction false} SumBounds(xs: seq<real>)
    requires forall i :: 0 <= i < |xs| ==> 0.0 <= xs[i] <= 1.0
    ensures 0.0 <= Sum(xs) <= |xs| as real
    decreases |xs|
  {
    if |xs| > 0 {
      SumBounds(xs[..|xs| - 1]);
    }
  }

  /** The mean of values in [0, 1] is in [0, 1]; there is a mean exactly when
      there are values, so nothing is divided by zero. */
  lemma MeanBounds(xs: seq<real>)
    requires forall i :: 0 <= i < |xs| ==> 0.0 <= xs[i] <= 1.0
    ensures Mean(xs).NoData? <==> |xs| == 0
    ensures Mean(xs).Num? ==> 0.0 <= Mean(xs).x <= 1.0
  {
    SumBounds(xs);
    if |xs| > 0 {
      var n := |xs| as real;
      assert Sum(xs) / n <= n / n;
    }
  }

  /** Cached labels of 0 or 1 (the only ones the engine writes) keep the mean
      of a tweet set in [0, 1]. */
  lemma TweetsMeanBounds(ts: seq<Tweet>, oracle: Oracle)
    requires forall i :: 0 <= i < |ts| ==> ts[i].sentiment.Some? ==> 0.0 <= ts[i].sentiment.value <= 1.0
    ensures Mean(Labels(ts, oracle)).NoData? <==> |ts| == 0
    ensures Mean(Labels(ts, oracle)).Num? ==> 0.0 <= Mean(Labels(ts, oracle)).x <= 1.0
  {
    MeanBounds(Labels(ts, oracle));
  }

  /** One positive tweet has mean 1.0. */
  lemma MeanOfOne(t: Tweet, oracle: Oracle)
    requires t.sentiment == Some(1.0)
    ensures Mean(Labels([t], oracle)) == Num(1.0)
  {
    assert Labels([t], oracle) == [1.0];
    assert [1.0][..0] == [];
    assert Sum([1.0]) == 1.0;
  }

  /** Exactly the tweets without a cached label are labelled and written, each
      once, with the classifier's label; the others are left out. */
  lemma LabelledExactly(ts: seq<Tweet>, oracle: Oracle)
    ensures forall u :: u in Labelled(ts, oracle) ==> exists t :: t in ts && t.sentiment.None? && u == Classified(t, oracle)
    ensures forall t :: t in ts && t.sentiment.None? ==> Classified(t, oracle) in Labelled(ts, oracle)
    ensures DistinctTweetIds(ts) ==> DistinctTweetIds(Labelled(ts, oracle))
    ensures DistinctTweetIds(ts) ==> forall t, u :: t in ts && t.sentiment.Some? && u in Labelled(ts, oracle) ==> u.id != t.id
  {
    LabelledMembers(ts, oracle);
    if DistinctTweetIds(ts) {
      LabelledDistinct(ts, oracle);
    }
  }

  lemma {:induction false} LabelledMembers(ts: seq<Tweet>, oracle: Oracle)
    ensures forall u :: u in Labelled(ts, oracle) ==> exists t :: t in ts && t.sentiment.None? && u == Classified(t, oracle)
    ensures forall t :: t in ts && t.sentiment.None? ==> Classified(t, oracle) in Labelled(ts, oracle)
    decreases |ts|
  {
    if |ts| > 0 {
      var init, last := ts[..|ts| - 1], ts[|ts| - 1];
      LabelledMembers(init, oracle);
      assert ts == init + [last];
    }
  }

  lemma {:induction false} LabelledDistinct(ts: seq<Tweet>, oracle: Oracle)
    requires DistinctTweetIds(ts)
    ensures DistinctTweetIds(Labelled(ts, oracle))
    ensures forall t, u :: t in ts && t.sentiment.Some? && u in Labelled(ts, oracle) ==> u.id != t.id
    decreases |ts|
  {
    if |ts| > 0 {
      var init, last := ts[..|ts| - 1], ts[|ts| - 1];
      assert ts == init + [last];
      assert DistinctTweetIds(init);
      LabelledMembers(init, oracle);
      LabelledDistinct(init, oracle);
      var head := Labelled(init, oracle);
      assert forall u :: u in head ==> u.id != last.id by {
        forall u | u in head ensures u.id != last.id {
          var t :| t in init && t.sentiment.None? && u == Classified(t, oracle);
          var j :| 0 <= j < |init| && init[j] == t;
          assert ts[j] == t && ts[|ts| - 1] == last;
        }
      }
      forall t, u | t in ts && t.sentiment.Some? && u in Labelled(ts, oracle) ensures u.id != t.id {
        if u in head {
          if t != last {
            assert t in init;
          }
        } else {
          assert u == Classified(last, oracle) && last.sentiment.None?;
          var j :| 0 <= j < |ts| && ts[j] == t;
          assert j != |ts| - 1;
        }
      }
      var whole := Labelled(ts, oracle);
      forall i, j | 0 <= i < |whole| && 0 <= j < |whole| && whole[i].id == whole[j].id ensures i == j {
        if i < |head| && j < |head| {
        } else if i >= |head| && j >= |head| {
        }
      }
    }
  }

  /** One write-back of a tweet that agrees with its stored version up to the
      label changes no stored text, timestamp or effective label. */
  lemma ReplaceTweetSame(cur: seq<Tweet>, base: seq<Tweet>, u: Tweet, j: int, oracle: Oracle)
    requires SameTweets(cur, base, oracle) && DistinctTweetIds(base)
    requires 0 <= j < |base| && SameTweet(base[j], u, oracle)
    ensures SameTweets(ReplaceTweet(cur, u), base, oracle)
  {
    assert DistinctTweetIds(cur) by {
      forall a, b | 0 <= a < |cur| && 0 <= b < |cur| && cur[a].id == cur[b].id ensures a == b {
        assert base[a].id == base[b].id;
      }
    }
    var r := ReplaceTweet(cur, u);
    forall i | 0 <= i < |cur| ensures SameTweet(r[i], base[i], oracle) {
      if cur[i].id == u.id {
        assert base[i].id == base[j].id;
      }
    }
  }

  /** Writing back the newly labelled tweets of a found set changes no stored
      text, timestamp or effective label. */
  lemma {:induction false} ReplaceLabelledSame(cur: seq<Tweet>, base: seq<Tweet>, us: seq<Tweet>, oracle: Oracle)
    requires SameTweets(cur, base, oracle) && DistinctTweetIds(base)
    requires forall u :: u in us ==> exists i :: 0 <= i < |base| && SameTweet(base[i], u, oracle)
    ensures SameTweets(ReplaceTweets(cur, us), base, oracle)
    decreases |us|
  {
    if |us| > 0 {
      var init, u := us[..|us| - 1], us[|us| - 1];
      assert forall v :: v in init ==> v in us;
      ReplaceLabelledSame(cur, base, init, oracle);
      assert u in us;
      var j :| 0 <= j < |base| && SameTweet(base[j], u, oracle);
      ReplaceTweetSame(ReplaceTweets(cur, init), base, u, j, oracle);
    }
  }

  /** After `get_tweets_sentiment` on tweets taken from the store, every stored
      tweet has the same text, timestamp and effective label as before. */
  lemma LabellingKeepsStore(store: seq<Tweet>, ts: seq<Tweet>, oracle: Oracle)
    requires DistinctTweetIds(store)
    requires forall t :: t in ts ==> t in store
    ensures SameTweets(ReplaceTweets(store, Labelled(ts, oracle)), store, oracle)
  {
    LabelledExactly(ts, oracle);
    forall u | u in Labelled(ts, oracle) ensures exists i :: 0 <= i < |store| && SameTweet(store[i], u, oracle) {
      var t :| t in ts && t.sentiment.None? && u == Classified(t, oracle);
      var i :| 0 <= i < |store| && store[i] == t;
      assert SameTweet(store[i], u, oracle);
    }
    ReplaceLabelledSame(store, store, Labelled(ts, oracle), oracle);
  }

  /** The label cache after `get_tweets_sentiment` on tweets taken from the
      store: each of them that had no label now holds the classifier's, and
      every other stored tweet, labelled or not read, is kept as it was. */
  lemma LabellingCaches(store: seq<Tweet>, ts: seq<Tweet>, oracle: Oracle)
    requires DistinctTweetIds(store)
    requires forall t :: t in ts ==> t in store
    ensures forall i :: 0 <= i < |store| && store[i] in ts && store[i].sentiment.None? ==>
              ReplaceTweets(store, Labelled(ts, oracle))[i] == Classified(store[i], oracle)
    ensures forall i :: 0 <= i < |store| && (store[i] !in ts || store[i].sentiment.Some?) ==>
              ReplaceTweets(store, Labelled(ts, oracle))[i] == store[i]
  {
    var us := Labelled(ts, oracle);
    LabelledExactly(ts, oracle);
    forall i | 0 <= i < |store|
      ensures forall u :: u in us && u.id == store[i].id ==> store[i] in ts && store[i].sentiment.None? && u == Classified(store[i], oracle)
    {
      forall u | u in us && u.id == store[i].id
        ensures store[i] in ts && store[i].sentiment.None? && u == Classified(store[i], oracle)
      {
        var t :| t in ts && t.sentiment.None? && u == Classified(t, oracle);
        var j :| 0 <= j < |store| && store[j] == t;
        assert store[j].id == store[i].id;
      }
    }
    forall i | 0 <= i < |store| && store[i] in ts && store[i].sentiment.None?
      ensures ReplaceTweets(store, us)[i] == Classified(store[i], oracle)
    {
      ReplaceTweetsTo(store, us, i, Classified(store[i], oracle));
    }
    forall i | 0 <= i < |store| && (store[i] !in ts || store[i].sentiment.Some?)
      ensures ReplaceTweets(store, us)[i] == store[i]
    {
      ReplaceTweetsUntouched(store, us, i);
    }
  }

  /** Tweets that agree up to caching give the same labels, hence the same mean. */
  lemma LabelsSame(a: seq<Tweet>, b: seq<Tweet>, oracle: Oracle)
    requires SameTweets(a, b, oracle)
    ensures Labels(a, oracle) == Labels(b, oracle)
  {
  }
}
