/** Character classes and the string operations the engine applies to titles,
    credit lists and person names. Only ASCII letters are case-folded. */
module Text {

  /** The regular-expression class `\w` (ASCII). */
  predicate IsWordChar(c: char)
  {
    ('a' <= c <= 'z') || ('A' <= c <= 'Z') || ('0' <= c <= '9') || c == '_'
  }

  function Lower(c: char): char
  {
    if 'A' <= c <= 'Z' then (c as int + 32) as char else c
  }

  function LowerStr(s: string): (r: string)
    ensures |r| == |s|
    ensures forall i :: 0 <= i < |s| ==> r[i] == Lower(s[i])
  {
    seq(|s|, i requires 0 <= i < |s| => Lower(s[i]))
  }

  lemma LowerIdempotent(c: char)
    ensures Lower(Lower(c)) == Lower(c)
  {
  }

  /** The characters Python's `str.split()` treats as whitespace. */
  predicate IsSpace(c: char)
  {
    c == ' ' || ('\t' <= c <= '\r') || ('\U{1c}' <= c <= '\U{1f}') || c == '\U{85}' || c == '\U{a0}'
    || c == '\U{1680}' || ('\U{2000}' <= c <= '\U{200a}') || c == '\U{2028}' || c == '\U{2029}'
    || c == '\U{202f}' || c == '\U{205f}' || c == '\U{3000}'
  }

  /** `s.split(sep)`: the pieces between separators, empty pieces included. */
  function Split(s: string, sep: char): (r: seq<string>)
    ensures |r| >= 1
    decreases |s|
  {
    if |s| == 0 then [""]
    else if s[0] == sep then [""] + Split(s[1..], sep)
    else
      var rest := Split(s[1..], sep);
      [[s[0]] + rest[0]] + rest[1..]
  }

  /** `sep.join(pieces)`. */
  function Join(pieces: seq<string>, sep: char): string
    requires |pieces| >= 1
  {
    if |pieces| == 1 then pieces[0] else pieces[0] + [sep] + Join(pieces[1..], sep)
  }

  /** Splitting and joining again gives back the credit string. */
  lemma {:induction false} JoinSplit(s: string, sep: char)
    ensures Join(Split(s, sep), sep) == s
    decreases |s|
  {
    if |s| == 0 {
    } else if s[0] == sep {
      JoinSplit(s[1..], sep);
      assert [sep] + s[1..] == s;
    } else {
      var rest := Split(s[1..], sep);
      JoinSplit(s[1..], sep);
      if |rest| == 1 {
        assert [s[0]] + s[1..] == s;
      } else {
        assert Join(rest, sep) == rest[0] + [sep] + Join(rest[1..], sep);
        assert ([s[0]] + rest[0]) + [sep] + Join(rest[1..], sep) == [s[0]] + Join(rest, sep);
        assert [s[0]] + s[1..] == s;
      }
    }
  }

  /** No piece of a split contains the separator. */
  lemma {:induction false} SplitPiecesHaveNoSeparator(s: string, sep: char)
    ensures forall i, k :: 0 <= i < |Split(s, sep)| && 0 <= k < |Split(s, sep)[i]| ==> Split(s, sep)[i][k] != sep
    decreases |s|
  {
    if |s| > 0 {
      SplitPiecesHaveNoSeparator(s[1..], sep);
    }
  }

  /** The length of the run of non-space characters that starts `s`. */
  function TokenLength(s: string): (n: nat)
    ensures n <= |s|
    ensures forall k :: 0 <= k < n ==> !IsSpace(s[k])
    ensures n == |s| || IsSpace(s[n])
    decreases |s|
  {
    if |s| == 0 || IsSpace(s[0]) then 0 else 1 + TokenLength(s[1..])
  }

  /** `s.split()`: the maximal runs of non-space characters, in order. */
  function Words(s: string): (r: seq<string>)
    decreases |s|
  {
    if |s| == 0 then []
    else if IsSpace(s[0]) then Words(s[1..])
    else
      var n := TokenLength(s);
      [s[..n]] + Words(s[n..])
  }

  function Concat(ws: seq<string>): string
  {
    if |ws| == 0 then "" else ws[0] + Concat(ws[1..])
  }

  /** `s` with its whitespace removed. */
  function NonSpace(s: string): string
  {
    if |s| == 0 then "" else (if IsSpace(s[0]) then "" else [s[0]]) + NonSpace(s[1..])
  }

  lemma {:induction false} NonSpaceAppend(a: string, b: string)
    ensures NonSpace(a + b) == NonSpace(a) + NonSpace(b)
    decreases |a|
  {
    if |a| > 0 {
      assert (a + b)[1..] == a[1..] + b;
      NonSpaceAppend(a[1..], b);
    } else {
      assert a + b == b;
    }
  }

  lemma {:induction false} NonSpaceOfToken(s: string)
    requires forall k :: 0 <= k < |s| ==> !IsSpace(s[k])
    ensures NonSpace(s) == s
    decreases |s|
  {
    if |s| > 0 {
      NonSpaceOfToken(s[1..]);
      assert [s[0]] + s[1..] == s;
    }
  }

  /** Every word is non-empty and free of whitespace, and together the words
      hold exactly the non-space characters of `s`, in order. */
  lemma {:induction false} WordsPartition(s: string)
    ensures forall i :: 0 <= i < |Words(s)| ==> |Words(s)[i]| > 0
    ensures forall i, k :: 0 <= i < |Words(s)| && 0 <= k < |Words(s)[i]| ==> !IsSpace(Words(s)[i][k])
    ensures Concat(Words(s)) == NonSpace(s)
    decreases |s|
  {
    if |s| == 0 {
    } else if IsSpace(s[0]) {
      WordsPartition(s[1..]);
    } else {
      var n := TokenLength(s);
      WordsPartition(s[n..]);
      assert s == s[..n] + s[n..];
      NonSpaceAppend(s[..n], s[n..]);
      NonSpaceOfToken(s[..n]);
      var ws := Words(s);
      assert ws == [s[..n]] + Words(s[n..]);
      assert ws[1..] == Words(s[n..]);
    }
  }

  /** A whitespace-free, non-empty string is one word. */
  lemma WordsToken(t: string)
    requires |t| > 0 && forall k :: 0 <= k < |t| ==> !IsSpace(t[k])
    ensures Words(t) == [t]
  {
    assert TokenLength(t) == |t|;
    assert t[..|t|] == t && t[|t|..] == [];
  }

  /** A run of non-space characters stops at the first whitespace. */
  lemma {:induction false} TokenStopsAtSpace(a: string, c: char, b: string)
    requires IsSpace(c)
    ensures TokenLength(a + [c] + b) == TokenLength(a)
    decreases |a|
  {
    if |a| == 0 {
      assert (a + [c] + b)[0] == c;
    } else {
      assert (a + [c] + b)[0] == a[0];
      assert (a + [c] + b)[1..] == a[1..] + [c] + b;
      TokenStopsAtSpace(a[1..], c, b);
    }
  }

  /** Words never run across whitespace: a string cut at a whitespace
      character has the words of its two sides. */
  lemma {:induction false} WordsSpaceSplit(a: string, c: char, b: string)
    requires IsSpace(c)
    ensures Words(a + [c] + b) == Words(a) + Words(b)
    decreases |a|
  {
    var s := a + [c] + b;
    if |a| == 0 {
      assert s[0] == c && s[1..] == b;
    } else if IsSpace(a[0]) {
      assert s[0] == a[0] && s[1..] == a[1..] + [c] + b;
      WordsSpaceSplit(a[1..], c, b);
    } else {
      assert s[0] == a[0];
      var m := TokenLength(a);
      TokenStopsAtSpace(a, c, b);
      assert s[..m] == a[..m] && s[m..] == a[m..] + [c] + b;
      WordsSpaceSplit(a[m..], c, b);
    }
  }

  /** A string has no words exactly when every one of its characters is whitespace. */
  lemma {:induction false} WordsEmpty(s: string)
    ensures Words(s) == [] <==> forall k :: 0 <= k < |s| ==> IsSpace(s[k])
    decreases |s|
  {
    if |s| > 0 {
      WordsEmpty(s[1..]);
      if IsSpace(s[0]) {
        assert forall k :: 1 <= k < |s| ==> s[k] == s[1..][k - 1];
      }
    }
  }
}
