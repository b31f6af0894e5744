# Movie tweet-sentiment engine — a verified Dafny model

This project models the scoring engine in `db_engine.py`. The engine reads a
store of tweets and movie records, picks the tweets that talk about a movie
(or about a person in a movie) with case-insensitive patterns, labels them with
an external sentiment classifier, and composes a movie page from these scores:

- an instant rating on an IMDb-like scale;
- a temporal series of running means;
- one breakdown per director, writer and actor;
- a per-tweet label cache and a per-movie results cache that save recomputation.

## Modules

- `wrappers.dfy`, module `Wrappers`: `Option`, `Result` and the errors the
  engine raises (`EmptyWordList`, `NoDataScore`, `NoTemporalCache`,
  `BadTimestamp`, `MissingMovie`).
- `text.dfy`, module `Text`: word characters, ASCII lower-casing, and
  `str.split(',')` and `str.split()`.
- `patterns.dfy`, module `Patterns`: the three pattern forms the engine builds
  and the queries over them:
  - the whole-word pattern `(?<!\w)w(?!\w)`;
  - the hashtag pattern `#t(?!\w)`;
  - a plain substring.

  Queries combine patterns with `$and` and `$or`. The module also holds the
  query builders `get_tweets_contains` and `get_movie_tweets_contains`.
- `scores.dfy`, module `Scores`: the classifier is a parameter `Oracle` from text
  to label. The module holds the polarity adapter, exact half-to-even rounding
  to hundredths, and `get_imdb_score`.
- `times.dfy`, module `Times`: `get_time_value`. It removes every `+dddd `
  offset, reads the fixed layout `%a %b %d %H:%M:%S %Y` into a field tuple, and
  orders tuples lexicographically.
- `records.dfy`, module `Records`: tweets, movies with their optional cached
  fields, breakdown entries, the page view and store writes. It also defines
  `SameTweets`, which holds when two tweet sequences differ at most in whether
  a label is cached yet.
- `store.dfy`, module `Db`: `find(...).limit(n)` as a prefix of the matches in
  storage order, where a limit of 0 means no limit. The class `Db.Store` holds
  the tweet and movie collections and a log of writes. It has the update
  operations `tweet_update_one`, `tweet_update_all` and `movie_update_one`.
- `aggregate.dfy`, module `Aggregate`: `get_tweets_sentiment` with its label cache.
- `temporal.dfy`, module `Temporal`: `get_temporal_tweet_sentiment`, which sorts
  stably by time and computes the online running mean.
- `breakdown.dfy`, module `Breakdown`: per-person ratings, `update_people_score`
  working in place on an array, and `get_movies_involving_person`.
- `page.dfy`, module `Page`: `get_movie_page_data`, with its step functions, a
  specification `Compose` of the result and the movie writes, and a corrected
  composition for the findings below.

Every method that writes to the store is proved against a specification over
the tweets as they were BEFORE the call. Its contract gives the write log
exactly: the old log followed by a specification of the writes issued
(`SentimentLog`, `RatingsWrites`, `ComposeLog`, ...). It also gives the tweets
exactly: the old tweets with those writes applied (`Db.ApplyTweets`). Labels
written along the way never change a text, a timestamp or an effective label
(`SameTweets`), so later scores in the same composition are the same as scores
over the original tweets.

## Behaviour kept as the code has it

- Newly labelled tweets are written with one update per tweet
  (`db_engine.py:50-52`).
- Several extra narrowing words are combined with `$or`, so a tweet needs only
  one of them (`db_engine.py:248`).
- A newly computed instant rating is written at once (`db_engine.py:286`). The
  final write-back is a second write, so a composition can issue two movie
  writes.
- The temporal series classifies every tweet afresh and ignores the label cache
  (`db_engine.py:325`).
- An empty tweet set gives `None` for the series (`db_engine.py:335`).
- `get_imdb_score` raises on the `'---'` rating, so the page raises for a movie
  whose rating is `'---'` (`db_engine.py:394`).
- The scaled breakdowns and the scaled cached series are stored on the record
  (`db_engine.py:399`, `414-417`), so the stored values are the shown ones. See
  Findings.

## Model

| member | source | states |
|---|---|---|
| `Scores.Sentiment` | db_engine.py:24-26 | the polarity is 1.0 or 0.0, and 1.0 exactly when the classifier's label is 'pos' |
| `Scores.RoundHalfEven` | db_engine.py:29 | the integer nearest to y, one of its two neighbours, and the even one on a tie, as Python's `round` does |
| `Scores.RoundHundredths` | db_engine.py:29 | `round(x, 2)` lies within 0.005 of x |
| `Scores.RoundHundredthsExact` | db_engine.py:29 | a value that already has two decimals is left as it is |
| `Scores.ImdbScore` | db_engine.py:28-29 | a number x becomes 6 + round(4x, 2); the `'---'` sentinel raises instead |
| `Scores.ScaleScore` | db_engine.py:367 | the guarded scaling of a list entry: `'---'` stays `'---'` and a number stays a number; a score in [0, 1] lands in [6, 10] |
| `Scores.ScaleValue` | db_engine.py:28-29 | the scaled value is within 0.005 of 6 + 4x |
| `Scores.ScaleValueEnds` | db_engine.py:28-29 | 0 scales to 6.0 and 1 scales to 10.0 |
| `Scores.ScaleValueRange` | db_engine.py:28-29 | every value in [0, 1] scales into [6, 10] |
| `Scores.ScaleValueMoves` | db_engine.py:28-29 | scaling raises every non-negative value, and sends every value of at least 6 above 10 |
| `Text.LowerStr` | db_engine.py:356 | lower-casing keeps the length and lower-cases each character |
| `Text.JoinSplit` | db_engine.py:354 | joining the pieces of `split(',')` with ',' gives back the credit string |
| `Text.SplitPiecesHaveNoSeparator` | db_engine.py:354 | no piece of `split(',')` contains a comma |
| `Text.WordsPartition` | db_engine.py:305 | `split()` yields non-empty words without whitespace, which together are exactly the non-space characters in order |
| `Text.WordsSpaceSplit` | db_engine.py:305 | words never span whitespace: a text cut at a whitespace character has the words of the part before followed by the words of the part after |
| `Text.WordsToken` | db_engine.py:305 | a non-empty text without whitespace is a single word, so together with `Text.WordsSpaceSplit` the words are the maximal non-space runs |
| `Text.Split` | db_engine.py:354 | `split(',')` always yields at least one piece; `Text.JoinSplit` and `Text.SplitPiecesHaveNoSeparator` state its meaning |
| `Text.Words` | db_engine.py:305 | `split()` is specified by `Text.WordsPartition`, `Text.WordsSpaceSplit`, `Text.WordsToken` and `Text.WordsEmpty` |
| `Text.WordsEmpty` | db_engine.py:305 | `split()` yields no word exactly when the text is all whitespace |
| `Patterns.WordQueryMeans` | db_engine.py:227 | the whole-word pattern matches exactly when the word occurs case-insensitively with no word character on either side |
| `Patterns.TweetsQuery` | db_engine.py:223-232 | the query exists exactly when the word list is non-empty; an empty list raises |
| `Patterns.TweetsQueryMeans` | db_engine.py:223-232 | for a non-empty list, a tweet matches exactly when every word occurs as a whole word |
| `Patterns.TitleQueryMeans` | db_engine.py:237-241 | a tweet is about a movie exactly when it has the hashtag of the title, or has the title as a whole word together with 'movie' or 'cinema' |
| `Patterns.MovieQueryMeans` | db_engine.py:234-255 | with no extra words the tweet only needs to be about the movie; otherwise at least one extra word must also occur as a whole word |
| `Patterns.Eval` | db_engine.py:223-255 | the query semantics: a pattern holds of the text, `$and` needs every part, `$or` needs at least one |
| `Patterns.WordQueries` | db_engine.py:244-248 | one whole-word query per extra word, in order |
| `Patterns.TitleQuery` | db_engine.py:237-241 | the movie query; its meaning is stated by `Patterns.TitleQueryMeans` |
| `Patterns.MovieQuery` | db_engine.py:234-255 | the movie query narrowed by the extra words; its meaning is stated by `Patterns.MovieQueryMeans` |
| `Patterns.WordBoundaryExample` | db_engine.py:227 | "Will" matches "Will Smith" but not "William Smith" |
| `Patterns.HashtagExample` | db_engine.py:237 | the hashtag pattern has a boundary on the right only: "love#Up!" matches "up" and "#Upside" does not |
| `Db.Matching` | db_engine.py:84-86 | every tweet found is in the collection and satisfies the query |
| `Db.MatchingComplete` | db_engine.py:84-86 | every tweet of the collection that satisfies the query is found |
| `Db.Find` | db_engine.py:84-86 | the result is the first `twitter_limit` matches in storage order, or all of them when the limit is 0 |
| `Db.FindSame` | db_engine.py:84-86 | writing labels back never changes what a query finds, up to cached labels |
| `Db.FindMovie` | db_engine.py:151-153 | the movie found has the requested id; no movie is found only when no record has that id |
| `Db.Crediting` | db_engine.py:206-209 | every movie found has the credit field, and that field contains the name as a whole word |
| `Db.ReplaceTweet` | db_engine.py:55-56 | with distinct ids, only the tweet with the written id is replaced and every other tweet is kept |
| `Db.ReplaceMovieAt` | db_engine.py:117-118 | with distinct ids, only the record with the written id is replaced |
| `Db.ApplyTweets` | db_engine.py:50-56 | the tweets after a sequence of writes: as many as before, with the same ids in the same order; a movie write changes no tweet |
| `Db.ApplyTweetWrites` | db_engine.py:50-52 | applying the one-per-tweet writes of a batch is the batch update |
| `Db.Store.TweetUpdateOne` | db_engine.py:55-56 | replaces the tweet with that id and logs one tweet write |
| `Db.Store.TweetUpdateAll` | db_engine.py:50-52 | one update per tweet in order, logged as one write per tweet |
| `Db.Store.MovieUpdateOne` | db_engine.py:117-118 | replaces the record with that id and logs one movie write |
| `Aggregate.SentimentPass` | db_engine.py:259-270 | the loop counts every tweet, sums the cached or fresh labels, and collects exactly the newly labelled tweets |
| `Aggregate.TweetsSentiment` | db_engine.py:258-277 | the result is the mean label, or `'---'` for no tweets; newly labelled tweets are written one by one; movies are untouched |
| `Aggregate.MeanBounds` | db_engine.py:277 | the mean is the sentinel exactly for no labels, with no division by zero, and otherwise lies in [0, 1] |
| `Aggregate.TweetsMeanBounds` | db_engine.py:258-277 | the instant mean of tweets with 0/1 labels is `'---'` exactly for no tweets and otherwise lies in [0, 1] |
| `Aggregate.MeanOfOne` | db_engine.py:264-268 | a single tweet with a cached positive label gives 1.0 |
| `Aggregate.LabelledExactly` | db_engine.py:264-275 | exactly the tweets without a label are labelled and written, each once; a tweet with a cached label is never written |
| `Aggregate.LabellingCaches` | db_engine.py:264-275 | after the writes, every found tweet that had no label holds the classifier's label, and every other stored tweet is as it was |
| `Aggregate.LabellingKeepsStore` | db_engine.py:264-275 | writing the new labels back keeps every text and timestamp, and keeps every effective label |
| `Aggregate.LabelsSame` | db_engine.py:264-268 | the labels counted depend only on the effective labels |
| `Times.NotAfterTotal` | db_engine.py:324 | any two instants are ordered one way or the other |
| `Times.NotAfterTransitive` | db_engine.py:324 | the order on instants is transitive |
| `Times.NotAfterAntisymmetric` | db_engine.py:324 | two instants ordered both ways are equal |
| `Times.ParseClock` | db_engine.py:310-313 | a parse that succeeds gives a valid calendar instant; every other input raises |
| `Times.StripOffsetsPlusFree` | db_engine.py:311 | a prefix with no '+' passes through the offset removal unchanged |
| `Times.StripFormatted` | db_engine.py:311 | removing the offset from a formatted timestamp leaves the clock and the year |
| `Times.ParseFormatted` | db_engine.py:310-319 | reading back a formatted timestamp gives the instant written, whatever the weekday name |
| `Times.ParseTimestamp` | db_engine.py:310-319 | remove the offsets, then read the clock; `Times.ParseClock` and `Times.ParseFormatted` state what it accepts and gives |
| `Times.ParseExample` | db_engine.py:310-313 | "Wed Oct 10 20:19:24 +0000 2018" reads as 2018-10-10 20:19:24 |
| `Temporal.SortByTime` | db_engine.py:324 | `sorted(..., key=get_time_value)`; `Temporal.SortByTimeCorrect` states that it is a stable sort by time |
| `Temporal.RunningMeans` | db_engine.py:327-332 | one value per label; `Temporal.RunningMeansMeaning` states that value i is the mean of the first i + 1 labels |
| `Temporal.TemporalOf` | db_engine.py:322-335 | the series of a tweet set; `Temporal.TemporalShape` and `Temporal.TemporalStable` state its shape and order |
| `Temporal.OnlineMeans` | db_engine.py:327-332 | the loop seeded with 0 yields, after the seed is dropped, the mean of the first i + 1 labels at position i |
| `Temporal.TemporalSentiment` | db_engine.py:322-335 | the result is the series of the time-sorted tweets: the dates, and the running means of fresh labels |
| `Temporal.SortByTimeCorrect` | db_engine.py:324 | the sort orders by time, permutes the dates, and keeps tweets with equal times in input order |
| `Temporal.TemporalShape` | db_engine.py:322-335 | no tweets give None; a failure comes only from an unparsable timestamp; otherwise both lists are as long as the input, and the dates are the input's parsed times in non-decreasing order |
| `Temporal.TemporalStable` | db_engine.py:324 | tweets with the same time keep their relative order |
| `Temporal.RunningMeansMeaning` | db_engine.py:325-332 | each running value is the mean of the first i + 1 labels in time order, and lies in [0, 1] |
| `Temporal.RunningMeansExample` | db_engine.py:327-332 | labels 1, 0, 1 give 1.0, 0.5 and 2/3 |
| `Temporal.TemporalIgnoresCache` | db_engine.py:325 | the series reads only texts and timestamps; cached labels change nothing |
| `Breakdown.MoviePersonTweetSentiment` | db_engine.py:303-307 | the score is the mean label of the movie's tweets that mention a word of the person; the log gains exactly one write per matched tweet that had no label, and the tweets are the old ones with those writes applied |
| `Breakdown.PersonTweetsMeans` | db_engine.py:303-307 | with no limit, a tweet counts for a person exactly when it is about the movie and mentions one of the person's words, or the name has no words |
| `Breakdown.PersonScore` | db_engine.py:303-307 | a person's score is `'---'` exactly when no tweet about the movie mentions the person; with cached labels in [0, 1] it lies in [0, 1] |
| `Breakdown.PersonScoreSame` | db_engine.py:303-307 | a person's score does not change when labels are written back |
| `Breakdown.MoviePersonRating` | db_engine.py:352-357 | one entry per comma-separated piece, named as written and scored with its lower-cased words; labels written for earlier pieces do not change the later scores; the log gains exactly the label writes of each piece in turn, and the tweets are the old ones with them applied |
| `Breakdown.Ratings` | db_engine.py:352-357 | the entries of a credit string; `Breakdown.Scored` and `Breakdown.RatingsShape` state what they hold |
| `Breakdown.Scored` | db_engine.py:354-356 | one entry per piece, in order: the piece as written with the score of its lower-cased form |
| `Breakdown.RatePiece` | db_engine.py:355-356 | one iteration of the rating loop: the score of the lower-cased piece over the tweets at the start of the loop; the log gains exactly that piece's label writes |
| `Breakdown.PersonWritesCache` | db_engine.py:303-307 | scoring a person caches the label of every matched tweet that had none, and leaves every other stored tweet as it was |
| `Breakdown.RatingsWritesTweetsOnly` | db_engine.py:352-357 | rating a credit string writes tweets only, never a movie |
| `Breakdown.RatingsShape` | db_engine.py:352-357 | the names joined with ',' give back the credit string; a score is `'---'` exactly when no tweet matched, and otherwise lies in [0, 1] |
| `Breakdown.UpdatePeopleScore` | db_engine.py:365-368 | every entry of the list is rescaled in place |
| `Breakdown.ScaledEntries` | db_engine.py:365-368 | scaling a list keeps its length, every name and every `'---'`, and sends scores in [0, 1] into [6, 10] |
| `Breakdown.IndexByTitle` | db_engine.py:210-218 | the dictionary's keys are exactly the titles of the movies found |
| `Breakdown.IndexByTitleLast` | db_engine.py:211-218 | each title maps to the id of the last movie found with that title |
| `Breakdown.IndexMovies` | db_engine.py:211-212 | the dictionary-filling loop builds the title index |
| `Breakdown.MoviesInvolvingPerson` | db_engine.py:205-220 | three title indexes of the movies crediting the person as actor, writer and director |
| `Breakdown.CreditingMeans` | db_engine.py:206-209 | a movie is listed for a role exactly when it has that credit and the credit contains the name as a whole word |
| `Page.MovieTweets` | db_engine.py:292-294 | every tweet returned is a stored tweet about the movie, at most `limit` of them; with no limit every stored tweet about the movie is returned |
| `Page.MovieTweetSentiment` | db_engine.py:280-289 | the cached rating, or the mean over the movie's tweets, which is stored on the record and written at once; the log gains exactly the label writes of the movie's unlabelled tweets and then that movie write, and the tweets are the old ones with those writes applied |
| `Page.TemporalMovieTweetSentiment` | db_engine.py:338-342 | the series over the tweets about the movie |
| `Page.RoleScores` | db_engine.py:410-417 | the cached or newly rated list, stored on the record and scaled in place, so the record holds the scaled list; the log gains exactly the label writes of the rating, none when the list was cached |
| `Page.TemporalScores` | db_engine.py:398-405 | a cached series is scaled, a cached null raises, an absent series is computed over the movie's tweets; it is newly computed exactly when none was cached |
| `Page.RawRoleScores` | db_engine.py:410-413 | the cached list, the ratings of the credit string, or `[]` without that credit; the log gains exactly the rating's label writes |
| `Page.PeopleScores` | db_engine.py:409-441 | the director, writer and actors breakdowns in turn; the log gains exactly the label writes of the three ratings, each over the tweets the one before left, and no movie write |
| `Page.ComposePage` | db_engine.py:378-448 | the page and the movie records are those of `Compose` over the tweets at the start; the log gains exactly `ComposeLog` (label writes of the rating, the movie write of the rating, label writes of the breakdowns, the final movie write), and the tweets are the old ones with those writes applied |
| `Page.FinishPage` | db_engine.py:409-444 | the three breakdowns, then one movie write of the settled record exactly when anything on it was newly computed; the log gains exactly the breakdowns' label writes and that write |
| `Page.Compose` | db_engine.py:372-448 | the page and the movie writes; `Page.ComposeRating`, `Page.ComposeTemporal`, `Page.ComposeBreakdown`, `Page.ComposeWrites` and `Page.ComposeMemoized` state what they hold |
| `Page.ComposeLogWrites` | db_engine.py:372-448 | the movie writes in the whole write log of a composition are exactly the record writes of `Compose`, in order |
| `Page.PageLogWrites` | db_engine.py:372-448 | the same for a page looked up by id; a missing id writes nothing |
| `Page.SentimentLogCaches` | db_engine.py:280-286 | rating a movie afresh caches the label of each of its tweets that had none and keeps every other stored tweet; a cached rating writes nothing |
| `Page.PageOf` | db_engine.py:376-378 | a missing id raises with nothing written; a page shown has the id asked for, and at most two records of that id are written |
| `Page.MoviePageData` | db_engine.py:372-448 | a missing id raises with nothing written; otherwise the page, the records, the whole log and the tweets are as `ComposePage` states |
| `Page.Attributes` | db_engine.py:380-389 | the page's attribute keys are exactly the page keys listed |
| `Page.PresentationalDefaults` | db_engine.py:380-389 | each of the ten attributes shows the record's value, or `'---'` when the record lacks it |
| `Page.ComposeRating` | db_engine.py:280-289 | a cached rating is reused and shown scaled; an absent one is the scaled mean of the movie's tweets; a cached `'---'` raises and writes nothing |
| `Page.ComposeTemporal` | db_engine.py:397-404 | an absent series is computed and shown unscaled; a cached series is shown scaled; a cached null raises |
| `Page.ComposeBreakdown` | db_engine.py:409-439 | a cached breakdown is reused; an absent one is rated from the credit string; a movie without that credit gets an empty list; all are shown scaled |
| `Page.ComposeWrites` | db_engine.py:392-444 | one write when the rating was absent; one final write exactly when the page completes and something else was absent; the final record holds all five results |
| `Page.BreakdownsSettle` | db_engine.py:409-439 | after the three breakdowns all three are cached, and nothing else on the record changes |
| `Page.ComposeMemoized` | db_engine.py:372-448 | with all five results cached, the page reads no tweet and writes nothing |
| `Page.TemporalStepSame` | db_engine.py:398-405 | the temporal step is the same over the tweets after labels were written |
| `Page.MovieTemporalSame` | db_engine.py:402 | the series computed after labels were written equals the one over the original tweets |
| `Page.RatingsSame` | db_engine.py:352-357 | breakdown ratings do not change when labels are written back |
| `Page.RepeatedPageRescales` | db_engine.py:397-444 | as written, the next page of the same movie scales the stored breakdowns again: scores of at least 6 are shown above 10, and a fresh series is shown scaled only the second time |
| `Page.NoDataRatingIsPermanent` | db_engine.py:280-289 | as written, a movie with no tweets raises and stores `'---'`, after which every later page raises |
| `Page.ComposeFixedIdempotent` | db_engine.py:372-448 | corrected: after a page completes, the next page of the same movie is the same page and writes nothing |
| `Page.FixedShowsNoData` | db_engine.py:394 | corrected: a movie with no tweets shows the `'---'` rating instead of raising |

## Findings

| source | as written | input that shows it | evidently intended | confidence | as-written member | corrected member |
|---|---|---|---|---|---|---|
| db_engine.py:399, 414-417, 425-428, 436-439 | the list stored on the movie is the list scaled in place (and a cached series is scaled in place), and the record is written back afterwards, so stored breakdowns are already scaled and are scaled again on every later page | a movie with a director credit and no cached breakdown, and one tweet about the movie that names the director and that the classifier labels positive: the first page shows 10.0 for the director and stores 10.0; the second page shows 46.0 | cache raw scores and scale only what is shown, so a page is the same on every request; the corrected step also shows a stored null series as no series, where the code raises (line 399), so a page that completes once completes again | high (not executed) | `Page.RepeatedPageRescales` | `Page.ComposeFixedIdempotent` |
| db_engine.py:277, 285-286, 394 | a movie with no matching tweet gets the rating `'---'`, which is stored at once; `get_imdb_score('---')` then raises, and the stored sentinel makes every later page raise | a movie with no cached rating and no tweet about it | show the `'---'` rating, as the page does for missing attributes | medium (not executed) | `Page.NoDataRatingIsPermanent` | `Page.FixedShowsNoData` |

## Left out

- The MongoDB connection and configuration (`db_engine.py:15-21`): the store is
  a class over sequences in storage order, with a write log.
- The insert, delete, bulk and JSON-folder wrappers (`db_engine.py:33-158`),
  except the find and update operations the engine calls.
- `get_matched_person_names` (`db_engine.py:168-202`): it rebinds `re` to a
  string. It returns the empty dict when no movie credits the name, and
  otherwise raises at the first `re.match` call (lines 177, 186 or 195); `append` on the
  dict (line 182) would raise too.
- `get_person_tweet_sentiment` and `get_temporal_person_tweet_sentiment`
  (`db_engine.py:297-300`, `345-349`): these are not part of this model. Each
  composes operations that are modelled (`Patterns.TweetsQuery`, `Db.Find`,
  `Aggregate.TweetsSentiment`, `Temporal.TemporalSentiment`).
- `get_matched_movie_names` and `search_movie_by_title` (`db_engine.py:361-363`,
  `163-165`): these query the movies' `Title` field with the whole-word
  pattern. No modelled operation queries titles, so they are not part of this
  model.
- `Breakdown.IndexByTitle`: the title index is a map, so the insertion order
  of the dictionary built at `db_engine.py:210-218` is not modelled; keys and
  values are.
- Missing fields: a movie's `Title` (lines 237-238, 379), a tweet's `text`
  (lines 265, 325) and its `created_at` (lines 311, 326) are always present in
  the model. The code raises `KeyError` when one is missing.
- The classifier's internals: the classifier is the parameter `Oracle`, and
  only the label it gives a text matters.
- Timing and console logging in `get_movie_page_data`: they have no effect on
  results.
- Floating point: scores are exact reals. `round(x, 2)` is exact half-to-even
  rounding to hundredths, not binary rounding.
- General regular expressions: only the three pattern forms the engine builds
  are modelled. Names and titles are assumed to contain no regular-expression
  metacharacters, because the code never escapes them.
- Case folding: characters are lower-cased for ASCII only. `\w` is ASCII
  letters, digits and `_`.
- `strptime` leniency: the model reads exactly the 24-character layout with
  two-digit fields and three-letter names. One-digit fields and extra spaces,
  which `strptime` also accepts, are not modelled.
- Non-ASCII digits: Python's `\d` in the offset pattern (line 311) and the
  numeric fields of `strptime` accept any Unicode decimal digit. `Times.IsDigit`
  accepts only '0' to '9'.
- Attribute values of the movie record are strings; other JSON types are not
  modelled.
- `Page.RoleScores`: the list shared between the record and the page is
  modelled by storing on the record the same scaled copy that the page shows,
  not by aliasing.
- `Db.Find` and `Db.Crediting`: the store's query engine is modelled as a
  filter in storage order over the patterns. Index use and cursor laziness are
  not modelled.
