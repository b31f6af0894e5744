/** The polarity adapter around the external classifier and the mapping of a
    mean polarity onto the 6..10 display scale. */
module Scores {
  import opened Wrappers

  /** The external classifier, reduced to the label it gives a text. */
  type Oracle = string -> string

  /** A mean polarity, or the '---' sentinel of an empty tweet set. */
  datatype Score = Num(x: real) | NoData

  /** `get_sentiment`: 1.0 for the label "pos", 0.0 for every other label. */
  function Sentiment(oracle: Oracle, text: string): (r: real)
    ensures r == 1.0 || r == 0.0
    ensures r == 1.0 <==> oracle(text) == "pos"
  {
    if oracle(text) == "pos" then 1.0 else 0.0
  }

  /** The integer nearest to `y`; a half goes to the even neighbour, as
      Python's `round` does. */
  function RoundHalfEven(y: real): (n: int)
    ensures -0.5 <= n as real - y <= 0.5
    ensures y.Floor <= n <= y.Floor + 1
    ensures n as real - y == 0.5 || y - n as real == 0.5 ==> n % 2 == 0
  {
    var f := y.Floor;
    var d := y - f as real;
    if d < 0.5 then f
    else if d > 0.5 then f + 1
    else if f % 2 == 0 then f
    else f + 1
  }

  /** `round(x, 2)` on exact reals: within half a hundredth of `x`. */
  function RoundHundredths(x: real): (r: real)
    ensures -0.005 <= r - x <= 0.005
  {
    RoundHalfEven(x * 100.0) as real / 100.0
  }

  /** A value that is already a whole number of hundredths is left as it is. */
  lemma RoundHundredthsExact(k: int)
    ensures RoundHundredths(k as real / 100.0) == k as real / 100.0
  {
    var y := (k as real / 100.0) * 100.0;
    assert y == k as real;
    assert y.Floor == k;
  }

  /** `get_imdb_score` applied to a number: `6 + round(4x, 2)`. */
  function ScaleValue(x: real): (r: real)
    ensures -0.005 <= r - (6.0 + 4.0 * x) <= 0.005
  {
    6.0 + RoundHundredths(x * 4.0)
  }

  /** `get_imdb_score` applied to a mean: the sentinel '---' raises a TypeError
      (the string is repeated four times and `round` rejects it). */
  function ImdbScore(s: Score): (r: Result<real>)
    ensures r.Err? <==> s.NoData?
    ensures r.Err? ==> r.error == NoDataScore
    ensures s.Num? ==> r.value == ScaleValue(s.x)
  {
    match s
    case Num(x) => Ok(ScaleValue(x))
    case NoData => Err(NoDataScore)
  }

  /** The guarded scaling of `update_people_score`: the sentinel passes through. */
  function ScaleScore(s: Score): (r: Score)
    ensures r.NoData? <==> s.NoData?
    ensures s.Num? && 0.0 <= s.x <= 1.0 ==> 6.0 <= r.x <= 10.0
  {
    assert s.Num? && 0.0 <= s.x <= 1.0 ==> 6.0 <= ScaleValue(s.x) <= 10.0 by {
      if s.Num? && 0.0 <= s.x <= 1.0 {
        ScaleValueRange(s.x);
      }
    }
    match s
    case Num(x) => Num(ScaleValue(x))
    case NoData => NoData
  }

  /** 0 goes to 6.0 and 1 goes to 10.0. */
  lemma ScaleValueEnds()
    ensures ScaleValue(0.0) == 6.0
    ensures ScaleValue(1.0) == 10.0
  {
    RoundHundredthsExact(0);
    assert 0.0 * 4.0 == 0 as real / 100.0;
    RoundHundredthsExact(400);
    assert 1.0 * 4.0 == 400 as real / 100.0;
  }

  /** Every mean polarity in [0, 1] lands in [6, 10]. */
  lemma ScaleValueRange(x: real)
    requires 0.0 <= x <= 1.0
    ensures 6.0 <= ScaleValue(x) <= 10.0
  {
    var y := x * 4.0 * 100.0;
    assert 0.0 <= y <= 400.0;
    var n := RoundHalfEven(y);
    assert 0 <= y.Floor <= 400;
    if y.Floor == 400 {
      assert y == 400.0;
      assert n == 400;
    }
    assert 0 <= n <= 400;
  }

  /** Scaling never leaves a non-negative value where it was: a value that is
      scaled a second time moves again. */
  lemma ScaleValueMoves(x: real)
    requires x >= 0.0
    ensures ScaleValue(x) > x
    ensures x >= 6.0 ==> ScaleValue(x) > 10.0
  {
  }
}
