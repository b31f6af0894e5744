/** The query trees the engine hands to the tweet store, and what they mean.
    Every pattern is matched case-insensitively; phrases are taken literally
    (they are assumed to hold no regular-expression metacharacters). */
module Patterns {
  import opened Text
  import opened Wrappers

  /** The three regular-expression shapes the engine builds. */
  datatype Pattern =
    | Word(phrase: string)      // `(?<!\w)` + phrase + `(?!\w)`
    | Hashtag(title: string)    // `#` + title + `(?!\w)`: no boundary on the left
    | Fragment(phrase: string)  // the phrase anywhere, even inside a word

  /** A `text` condition, or `$and` / `$or` of sub-queries. */
  datatype Query = Match(p: Pattern) | And(all: seq<Query>) | Or(any: seq<Query>)

  /** `phrase` occurs at position `i` of `text`, ignoring case. */
  predicate PhraseAt(text: string, phrase: string, i: int)
  {
    0 <= i && i + |phrase| <= |text| &&
    forall k :: 0 <= k < |phrase| ==> Lower(text[i + k]) == Lower(phrase[k])
  }

  /** `(?<!\w)` at position `i`. */
  predicate BoundaryBefore(text: string, i: int)
    requires 0 <= i <= |text|
  {
    i == 0 || !IsWordChar(text[i - 1])
  }

  /** `(?!\w)` at position `j`. */
  predicate BoundaryAfter(text: string, j: int)
    requires 0 <= j <= |text|
  {
    j == |text| || !IsWordChar(text[j])
  }

  predicate WordAt(text: string, w: string, i: int)
  {
    PhraseAt(text, w, i) && BoundaryBefore(text, i) && BoundaryAfter(text, i + |w|)
  }

  predicate HashtagAt(text: string, t: string, i: int)
  {
    0 <= i < |text| && text[i] == '#' && PhraseAt(text, t, i + 1) && BoundaryAfter(text, i + 1 + |t|)
  }

  predicate HasWord(text: string, w: string)
  {
    exists i :: 0 <= i <= |text| && WordAt(text, w, i)
  }

  predicate HasHashtag(text: string, t: string)
  {
    exists i :: 0 <= i < |text| && HashtagAt(text, t, i)
  }

  predicate HasFragment(text: string, w: string)
  {
    exists i :: 0 <= i <= |text| && PhraseAt(text, w, i)
  }

  predicate Holds(p: Pattern, text: string)
  {
    match p
    case Word(w) => HasWord(text, w)
    case Hashtag(t) => HasHashtag(text, t)
    case Fragment(w) => HasFragment(text, w)
  }

  /** Whether a tweet text satisfies a query tree. */
  predicate Eval(q: Query, text: string)
    decreases q
  {
    match q
    case Match(p) => Holds(p, text)
    case And(qs) => forall i :: 0 <= i < |qs| ==> Eval(qs[i], text)
    case Or(qs) => exists i :: 0 <= i < |qs| && Eval(qs[i], text)
  }

  /** The whole-word condition built for one word (the word is lower-cased first). */
  function WordQuery(w: string): Query
  {
    Match(Word(LowerStr(w)))
  }

  function WordQueries(words: seq<string>): (r: seq<Query>)
    ensures |r| == |words|
    ensures forall i :: 0 <= i < |words| ==> r[i] == WordQuery(words[i])
  {
    seq(|words|, i requires 0 <= i < |words| => WordQuery(words[i]))
  }

  /** `get_tweets_contains`: `$and` of whole-word conditions for two or more
      words, the single condition for one word; an empty list raises. */
  function TweetsQuery(words: seq<string>): (r: Result<Query>)
    ensures r.Err? <==> |words| == 0
    ensures r.Err? ==> r.error == EmptyWordList
  {
    if |words| > 1 then Ok(And(WordQueries(words)))
    else if |words| == 1 then Ok(WordQuery(words[0]))
    else Err(EmptyWordList)
  }

  /** The context words that make a bare title mention count. */
  const HelpWords: seq<string> := ["movie", "cinema"]

  /** The base query of `get_movie_tweets_contains`: the hashtag of the title, or
      the title as a whole word together with one of the help words anywhere. */
  function TitleQuery(title: string): Query
  {
    Or([Match(Hashtag(LowerStr(title))),
        And([WordQuery(title),
             Or(seq(|HelpWords|, i requires 0 <= i < |HelpWords| => Match(Fragment(LowerStr(HelpWords[i])))))])])
  }

  /** `get_movie_tweets_contains`: the base query, narrowed by one extra word with
      `$and`, or by several extra words with `$and` of an `$or`. */
  function MovieQuery(title: string, words: seq<string>): Query
  {
    var base := TitleQuery(title);
    if |words| > 1 then And([base, Or(WordQueries(words))])
    else if |words| == 1 then And([base, WordQuery(words[0])])
    else base
  }

  // ---------------------------------------------------------------- meaning

  lemma PhraseAtLower(text: string, w: string, i: int)
    ensures PhraseAt(text, LowerStr(w), i) <==> PhraseAt(text, w, i)
  {
    forall k | 0 <= k < |w| ensures Lower(LowerStr(w)[k]) == Lower(w[k]) {
      LowerIdempotent(w[k]);
    }
  }

  /** Lower-casing the word before building the pattern changes nothing. */
  lemma WordQueryMeans(w: string, text: string)
    ensures Eval(WordQuery(w), text) <==> HasWord(text, w)
  {
    forall i ensures WordAt(text, LowerStr(w), i) <==> WordAt(text, w, i) {
      PhraseAtLower(text, w, i);
    }
  }

  lemma HashtagLower(t: string, text: string)
    ensures HasHashtag(text, LowerStr(t)) <==> HasHashtag(text, t)
  {
    forall i ensures HashtagAt(text, LowerStr(t), i) <==> HashtagAt(text, t, i) {
      PhraseAtLower(text, t, i + 1);
    }
  }

  /** With at least one word, a tweet qualifies exactly when every word appears
      in it as a whole word. */
  lemma TweetsQueryMeans(words: seq<string>, text: string)
    requires |words| > 0
    ensures TweetsQuery(words).Ok?
    ensures Eval(TweetsQuery(words).value, text) <==> forall i :: 0 <= i < |words| ==> HasWord(text, words[i])
  {
    forall i | 0 <= i < |words| ensures Eval(WordQuery(words[i]), text) <==> HasWord(text, words[i]) {
      WordQueryMeans(words[i], text);
    }
  }

  /** The base movie condition: `#title` followed by a non-word character or the
      end, or the whole-word title with "movie" or "cinema" anywhere. */
  predicate TitleMatch(title: string, text: string)
  {
    HasHashtag(text, title) || (HasWord(text, title) && (HasFragment(text, "movie") || HasFragment(text, "cinema")))
  }

  lemma TitleQueryMeans(title: string, text: string)
    ensures Eval(TitleQuery(title), text) <==> TitleMatch(title, text)
  {
    HashtagLower(title, text);
    WordQueryMeans(title, text);
    var helps := seq(|HelpWords|, i requires 0 <= i < |HelpWords| => Match(Fragment(LowerStr(HelpWords[i]))));
    assert LowerStr("movie") == "movie";
    assert LowerStr("cinema") == "cinema";
    assert helps == [Match(Fragment("movie")), Match(Fragment("cinema"))];
    var context := Or(helps);
    assert Eval(context, text) <==> Eval(helps[0], text) || Eval(helps[1], text);
    var bare := And([WordQuery(title), context]);
    assert bare.all[0] == WordQuery(title) && bare.all[1] == context;
    assert Eval(bare, text) <==> Eval(bare.all[0], text) && Eval(bare.all[1], text);
    var tag := Match(Hashtag(LowerStr(title)));
    assert TitleQuery(title) == Or([tag, bare]);
    var whole := Or([tag, bare]);
    assert whole.any[0] == tag && whole.any[1] == bare;
    assert Eval(whole, text) <==> Eval(whole.any[0], text) || Eval(whole.any[1], text);
  }

  /** A tweet qualifies for a movie and a list of extra words exactly when it
      meets the base condition and, if there are extra words, at least one of
      them appears as a whole word: one word narrows by AND, several by OR. */
  lemma MovieQueryMeans(title: string, words: seq<string>, text: string)
    ensures Eval(MovieQuery(title, words), text) <==>
            TitleMatch(title, text) && (|words| == 0 || exists i :: 0 <= i < |words| && HasWord(text, words[i]))
  {
    TitleQueryMeans(title, text);
    forall i | 0 <= i < |words| ensures Eval(WordQuery(words[i]), text) <==> HasWord(text, words[i]) {
      WordQueryMeans(words[i], text);
    }
    if |words| > 1 {
      var q := And([TitleQuery(title), Or(WordQueries(words))]);
      assert q.all[0] == TitleQuery(title) && q.all[1] == Or(WordQueries(words));
      assert Eval(q, text) <==> Eval(q.all[0], text) && Eval(q.all[1], text);
      assert Eval(Or(WordQueries(words)), text) <==> exists i :: 0 <= i < |words| && Eval(WordQueries(words)[i], text);
    } else if |words| == 1 {
      var q := And([TitleQuery(title), WordQuery(words[0])]);
      assert q.all[0] == TitleQuery(title) && q.all[1] == WordQuery(words[0]);
      assert Eval(q, text) <==> Eval(q.all[0], text) && Eval(q.all[1], text);
    }
  }

  /** "Will" matches in "Will Smith" but not inside "William Smith". */
  lemma WordBoundaryExample()
    ensures HasWord("Will Smith", "Will")
    ensures !HasWord("William Smith", "Will")
  {
    assert WordAt("Will Smith", "Will", 0);
    var t := "William Smith";
    assert forall i :: 0 <= i <= |t| && WordAt(t, "Will", i) ==> i == 0;
  }

  /** The hashtag needs no boundary on its left but needs one on its right. */
  lemma HashtagExample()
    ensures HasHashtag("love#Up!", "up")
    ensures !HasHashtag("#Upside", "up")
  {
    assert HashtagAt("love#Up!", "up", 4);
    var t := "#Upside";
    assert forall i :: 0 <= i < |t| && HashtagAt(t, "up", i) ==> i == 0;
  }
}
