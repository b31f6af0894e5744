/** The temporal sentiment series: tweets ordered by time, every tweet
    classified afresh, and the running mean of the labels. */
module Temporal {
  import opened Wrappers
  import opened Scores
  import opened Times
  import opened Records
  import opened Aggregate

  /** What the series reads of a tweet: its parsed time and its text. */
  datatype Stamp = Stamp(at: Instant, text: string)

  /** The sort key of every tweet; one unparsable timestamp makes the sort raise. */
  function Stamps(ts: seq<Tweet>): Result<seq<Stamp>>
  {
    if exists i :: 0 <= i < |ts| && ParseTimestamp(ts[i].createdAt).Err? then Err(BadTimestamp)
    else Ok(seq(|ts|, i requires 0 <= i < |ts| => Stamp(ParseTimestamp(ts[i].createdAt).value, ts[i].text)))
  }

  /** Places `x` before the first stamp that is not earlier than it. */
  function Insert(x: Stamp, s: seq<Stamp>): (r: seq<Stamp>)
    ensures |r| == |s| + 1
  {
    if |s| == 0 || NotAfter(x.at, s[0].at) then [x] + s
    else
      assert s == [s[0]] + s[1..];
      [s[0]] + Insert(x, s[1..])
  }

  /** `sorted(tweets, key=get_time_value)`: a stable sort by time. */
  function SortByTime(s: seq<Stamp>): (r: seq<Stamp>)
    ensures |r| == |s|
  {
    if |s| == 0 then []
    else
      assert s == [s[0]] + s[1..];
      Insert(s[0], SortByTime(s[1..]))
  }

  predicate SortedByTime(s: seq<Stamp>)
  {
    forall i, j :: 0 <= i < j < |s| ==> NotAfter(s[i].at, s[j].at)
  }

  /** The stamps with time `k`, in order. */
  function At(s: seq<Stamp>, k: Instant): seq<Stamp>
  {
    if |s| == 0 then [] else (if s[0].at == k then [s[0]] else []) + At(s[1..], k)
  }

  function Dates(s: seq<Stamp>): (r: seq<Instant>)
    ensures |r| == |s|
    ensures forall i :: 0 <= i < |s| ==> r[i] == s[i].at
  {
    seq(|s|, i requires 0 <= i < |s| => s[i].at)
  }

  /** `get_sentiment` of every text, ignoring any cached label. */
  function Polarities(s: seq<Stamp>, oracle: Oracle): (r: seq<real>)
    ensures |r| == |s|
    ensures forall i :: 0 <= i < |s| ==> r[i] == Sentiment(oracle, s[i].text)
  {
    seq(|s|, i requires 0 <= i < |s| => Sentiment(oracle, s[i].text))
  }

  /** The mean of the first i + 1 labels. */
  function PrefixMean(xs: seq<real>, i: nat): real
    requires i < |xs|
  {
    Sum(xs[..i + 1]) / (i + 1) as real
  }

  /** The i-th value is the mean of the first i + 1 labels. */
  function RunningMeans(xs: seq<real>): (r: seq<real>)
    ensures |r| == |xs|
  {
    seq(|xs|, i requires 0 <= i < |xs| => PrefixMean(xs, i))
  }

  /** One step of the online mean: the previous mean times the count so far,
      plus the new label, over the new count. */
  lemma {:induction false} StepMean(xs: seq<real>, i: nat, previous: real)
    requires i < |xs|
    requires i == 0 ==> previous == 0.0
    requires i > 0 ==> previous == PrefixMean(xs, i - 1)
    ensures (previous * i as real + xs[i]) / (i + 1) as real == PrefixMean(xs, i)
  {
    assert xs[..i + 1][..i] == xs[..i];
    if i > 0 {
      assert xs[..i - 1 + 1] == xs[..i];
      var n := i as real;
      assert previous * n == Sum(xs[..i]);
    }
  }

  /** What `get_temporal_tweet_sentiment` returns: None for no tweets, else the
      sorted dates and the running means of the fresh labels in time order. */
  function TemporalOf(tweets: seq<Tweet>, oracle: Oracle): Result<Option<Series>>
  {
    if |tweets| == 0 then Ok(None)
    else
      match Stamps(tweets)
      case Err(e) => Err(e)
      case Ok(stamps) =>
        var sorted := SortByTime(stamps);
        Ok(Some(Series(Dates(sorted), RunningMeans(Polarities(sorted, oracle)))))
  }

  /** The loop of `get_temporal_tweet_sentiment`: a list seeded with 0, each
      new mean computed from the last one, and the seed dropped at the end. */
  method OnlineMeans(sentiments: seq<real>) returns (averages: seq<real>)
    ensures averages == RunningMeans(sentiments)
  {
    averages := [0.0];
    var counter := 0;
    for i := 0 to |sentiments|
      invariant counter == i
      invariant |averages| == i + 1 && averages[0] == 0.0
      invariant forall j :: 0 <= j < i ==> averages[j + 1] == PrefixMean(sentiments, j)
    {
      var t := sentiments[i];
      counter := counter + 1;
      var previous := averages[|averages| - 1];
      StepMean(sentiments, i, previous);
      var next := (previous * (counter - 1) as real + t) / counter as real;
      assert next == PrefixMean(sentiments, i) by {
        assert (counter - 1) as real == i as real && counter as real == (i + 1) as real;
      }
      averages := averages + [next];
    }
    averages := averages[1..];
  }

  /** `get_temporal_tweet_sentiment`: no series for no tweets; otherwise the
      tweets sorted by time, each classified afresh, and the running means. */
  method TemporalSentiment(tweets: seq<Tweet>, oracle: Oracle) returns (r: Result<Option<Series>>)
    ensures r == TemporalOf(tweets, oracle)
  {
    if |tweets| > 0 {
      var stamps := Stamps(tweets);
      if stamps.Err? {
        return Err(stamps.error);
      }
      var sorted := SortByTime(stamps.value);
      var sentiments := Polarities(sorted, oracle);
      var dates := Dates(sorted);
      var averages := OnlineMeans(sentiments);
      return Ok(Some(Series(dates, averages)));
    }
    return Ok(None);
  }

  // ---------------------------------------------------------------- sorting

  /** Inserting adds `x` and nothing else. */
  lemma {:induction false} InsertElements(x: Stamp, s: seq<Stamp>)
    ensures forall k :: 0 <= k < |Insert(x, s)| ==> Insert(x, s)[k] == x || Insert(x, s)[k] in s
    decreases |s|
  {
    if |s| > 0 && !NotAfter(x.at, s[0].at) {
      InsertElements(x, s[1..]);
      var r := Insert(x, s);
      forall k | 0 <= k < |r| ensures r[k] == x || r[k] in s {
        if k > 0 {
          assert r[k] == Insert(x, s[1..])[k - 1];
        }
      }
    }
  }

  /** A sorted sequence stays sorted under a head no later than its elements. */
  lemma SortedCons(h: Stamp, s: seq<Stamp>)
    requires SortedByTime(s)
    requires forall j :: 0 <= j < |s| ==> NotAfter(h.at, s[j].at)
    ensures SortedByTime([h] + s)
  {
    var r := [h] + s;
    forall i, j | 0 <= i < j < |r| ensures NotAfter(r[i].at, r[j].at) {
      assert r[j] == s[j - 1];
      if i > 0 {
        assert r[i] == s[i - 1];
      }
    }
  }

  lemma {:induction false} InsertSorted(x: Stamp, s: seq<Stamp>)
    requires SortedByTime(s)
    ensures SortedByTime(Insert(x, s))
    decreases |s|
  {
    if |s| > 0 && !NotAfter(x.at, s[0].at) {
      NotAfterTotal(x.at, s[0].at);
      InsertSorted(x, s[1..]);
      var tail := Insert(x, s[1..]);
      InsertElements(x, s[1..]);
      forall k | 0 <= k < |tail| ensures NotAfter(s[0].at, tail[k].at) {
        var e := tail[k];
        if e != x {
          var j :| 0 <= j < |s[1..]| && s[1..][j] == e;
          assert s[j + 1] == e;
        }
      }
      SortedCons(s[0], tail);
    } else if |s| > 0 {
      forall j | 0 <= j < |s| ensures NotAfter(x.at, s[j].at) {
        if j > 0 {
          NotAfterTransitive(x.at, s[0].at, s[j].at);
        }
      }
      SortedCons(x, s);
    }
  }

  lemma {:induction false} AtAppend(a: seq<Stamp>, b: seq<Stamp>, k: Instant)
    ensures At(a + b, k) == At(a, k) + At(b, k)
    decreases |a|
  {
    if |a| == 0 {
      assert a + b == b;
    } else {
      assert (a + b)[1..] == a[1..] + b;
      AtAppend(a[1..], b, k);
    }
  }

  lemma {:induction false} InsertStable(x: Stamp, s: seq<Stamp>, k: Instant)
    ensures At(Insert(x, s), k) == At([x], k) + At(s, k)
    decreases |s|
  {
    if |s| == 0 || NotAfter(x.at, s[0].at) {
      AtAppend([x], s, k);
    } else {
      NotAfterTotal(x.at, s[0].at);
      InsertStable(x, s[1..], k);
      AtAppend([s[0]], Insert(x, s[1..]), k);
      AtAppend([s[0]], s[1..], k);
      assert s == [s[0]] + s[1..];
    }
  }

  lemma DatesCons(a: Stamp, s: seq<Stamp>)
    ensures Dates([a] + s) == [a.at] + Dates(s)
  {
  }

  lemma {:induction false} InsertDates(x: Stamp, s: seq<Stamp>)
    ensures multiset(Dates(Insert(x, s))) == multiset(Dates(s)) + multiset{x.at}
    decreases |s|
  {
    if |s| == 0 || NotAfter(x.at, s[0].at) {
      DatesCons(x, s);
    } else {
      var tail := Insert(x, s[1..]);
      InsertDates(x, s[1..]);
      DatesCons(s[0], tail);
      assert s == [s[0]] + s[1..];
      DatesCons(s[0], s[1..]);
      calc {
        multiset(Dates(Insert(x, s)));
        multiset([s[0].at] + Dates(tail));
        multiset{s[0].at} + multiset(Dates(tail));
        multiset{s[0].at} + multiset(Dates(s[1..])) + multiset{x.at};
        multiset([s[0].at] + Dates(s[1..])) + multiset{x.at};
      }
    }
  }

  lemma {:induction false} SortByTimeSorted(s: seq<Stamp>)
    ensures SortedByTime(SortByTime(s))
    decreases |s|
  {
    if |s| > 0 {
      SortByTimeSorted(s[1..]);
      InsertSorted(s[0], SortByTime(s[1..]));
    }
  }

  lemma {:induction false} SortByTimeDates(s: seq<Stamp>)
    ensures multiset(Dates(SortByTime(s))) == multiset(Dates(s))
    decreases |s|
  {
    if |s| > 0 {
      var sortedTail := SortByTime(s[1..]);
      SortByTimeDates(s[1..]);
      InsertDates(s[0], sortedTail);
      assert Dates(s) == [s[0].at] + Dates(s[1..]) by {
        DatesCons(s[0], s[1..]);
        assert s == [s[0]] + s[1..];
      }
    }
  }

  lemma {:induction false} SortByTimeStable(s: seq<Stamp>, k: Instant)
    ensures At(SortByTime(s), k) == At(s, k)
    decreases |s|
  {
    if |s| > 0 {
      SortByTimeStable(s[1..], k);
      InsertStable(s[0], SortByTime(s[1..]), k);
      AtAppend([s[0]], s[1..], k);
      assert s == [s[0]] + s[1..];
    }
  }

  /** The sort orders by time, is a permutation, and keeps tweets with the same
      time in their original order. */
  lemma SortByTimeCorrect(s: seq<Stamp>)
    ensures SortedByTime(SortByTime(s))
    ensures multiset(Dates(SortByTime(s))) == multiset(Dates(s))
    ensures forall k :: At(SortByTime(s), k) == At(s, k)
  {
    SortByTimeSorted(s);
    SortByTimeDates(s);
    forall k ensures At(SortByTime(s), k) == At(s, k) {
      SortByTimeStable(s, k);
    }
  }

  // ---------------------------------------------------------------- properties

  /** No tweets give None; otherwise both lists are as long as the input, the
      dates are the parsed times of the input in non-decreasing order, and a
      failure can only come from an unparsable timestamp. */
  lemma TemporalShape(tweets: seq<Tweet>, oracle: Oracle)
    ensures |tweets| == 0 ==> TemporalOf(tweets, oracle) == Ok(None)
    ensures TemporalOf(tweets, oracle).Err? <==> exists i :: 0 <= i < |tweets| && ParseTimestamp(tweets[i].createdAt).Err?
    ensures TemporalOf(tweets, oracle).Ok? && |tweets| > 0 ==>
      var series := TemporalOf(tweets, oracle).value;
      && series.Some?
      && |series.value.dates| == |tweets|
      && |series.value.ratings| == |tweets|
      && (forall i, j :: 0 <= i < j < |tweets| ==> NotAfter(series.value.dates[i], series.value.dates[j]))
      && multiset(series.value.dates) == multiset(Dates(Stamps(tweets).value))
  {
    if |tweets| > 0 && Stamps(tweets).Ok? {
      SortByTimeCorrect(Stamps(tweets).value);
    }
  }

  /** Tweets with the same time keep their relative order in the series. */
  lemma TemporalStable(tweets: seq<Tweet>, k: Instant)
    requires Stamps(tweets).Ok?
    ensures At(SortByTime(Stamps(tweets).value), k) == At(Stamps(tweets).value, k)
  {
    SortByTimeCorrect(Stamps(tweets).value);
  }

  /** The i-th running value is the mean of the first i + 1 fresh labels in time
      order, so it lies in [0, 1]. */
  lemma RunningMeansMeaning(tweets: seq<Tweet>, oracle: Oracle)
    requires TemporalOf(tweets, oracle).Ok? && |tweets| > 0
    ensures var sorted := SortByTime(Stamps(tweets).value);
            var labels := Polarities(sorted, oracle);
            var ratings := TemporalOf(tweets, oracle).value.value.ratings;
            forall i :: 0 <= i < |ratings| ==> Mean(labels[..i + 1]) == Num(ratings[i]) && 0.0 <= ratings[i] <= 1.0
  {
    var sorted := SortByTime(Stamps(tweets).value);
    var labels := Polarities(sorted, oracle);
    var ratings := TemporalOf(tweets, oracle).value.value.ratings;
    forall i | 0 <= i < |ratings| ensures Mean(labels[..i + 1]) == Num(ratings[i]) && 0.0 <= ratings[i] <= 1.0 {
      MeanBounds(labels[..i + 1]);
    }
  }

  /** Labels 1, 0, 1 give the running means 1, 0.5 and 2/3. */
  lemma RunningMeansExample()
    ensures RunningMeans([1.0, 0.0, 1.0]) == [1.0, 0.5, 2.0 / 3.0]
  {
    var xs := [1.0, 0.0, 1.0];
    assert xs[..1] == [1.0] && xs[..2] == [1.0, 0.0] && xs[..3] == xs;
    assert [1.0][..0] == [] && [1.0, 0.0][..1] == [1.0] && xs[..2] == [1.0, 0.0];
    assert Sum(xs[..1]) == 1.0;
    assert Sum(xs[..2]) == 1.0;
    assert Sum(xs[..3]) == 2.0;
  }

  /** The series reads only texts and timestamps: cached labels, present or not,
      change nothing. */
  lemma TemporalIgnoresCache(a: seq<Tweet>, b: seq<Tweet>, oracle: Oracle)
    requires |a| == |b|
    requires forall i :: 0 <= i < |a| ==> a[i].text == b[i].text && a[i].createdAt == b[i].createdAt
    ensures TemporalOf(a, oracle) == TemporalOf(b, oracle)
  {
    if Stamps(a).Ok? {
      assert Stamps(b).Ok?;
      assert Stamps(a).value == Stamps(b).value;
    }
  }
}
