/** The average-rating rule shared by the client repository and the backend: zero for no
    reviews, otherwise the mean review rating rounded to one decimal place. The result is a
    whole number of tenths; the rounding is the one `toFixed(1)` applies to an exact value,
    halves away from zero. */
module Rating {

  /** Rounds `x` to one decimal place; the result counts tenths. */
  function RoundTenths(x: real): (r: int)
    ensures 10.0 * x - 0.5 <= r as real <= 10.0 * x + 0.5
    ensures x >= 0.0 ==> 10.0 * x - 0.5 < r as real
    ensures x < 0.0 ==> r as real < 10.0 * x + 0.5
  {
    if x >= 0.0 then (10.0 * x + 0.5).Floor else -((-10.0 * x + 0.5).Floor)
  }

  /** The bounds of `RoundTenths` leave one choice: exactly one whole number of tenths lies in
      the half-open interval around ten times `x`, so an exact half is settled away from zero. */
  lemma RoundTenthsUnique(x: real, t: int)
    requires x >= 0.0 ==> 10.0 * x - 0.5 < t as real <= 10.0 * x + 0.5
    requires x < 0.0 ==> 10.0 * x - 0.5 <= t as real < 10.0 * x + 0.5
    ensures t == RoundTenths(x)
  {
    var r := RoundTenths(x);
    assert -1.0 < (t - r) as real < 1.0;
  }

  /** The sum of the ratings. */
  function Sum(ratings: seq<real>): real {
    if |ratings| == 0 then 0.0 else ratings[0] + Sum(ratings[1..])
  }

  /** The rating of a property with these review ratings, in tenths: the mean times ten, rounded
      to the nearest whole number, an exact half away from zero. */
  function AverageTenths(ratings: seq<real>): (r: int)
    ensures |ratings| == 0 ==> r == 0
    ensures |ratings| > 0 ==>
      var mean := Sum(ratings) / (|ratings| as real);
      && 10.0 * mean - 0.5 <= r as real <= 10.0 * mean + 0.5
      && (mean >= 0.0 ==> 10.0 * mean - 0.5 < r as real)
      && (mean < 0.0 ==> r as real < 10.0 * mean + 0.5)
  {
    if |ratings| == 0 then 0 else RoundTenths(Sum(ratings) / (|ratings| as real))
  }

  /** Every rating lies between `lo` and `hi`. */
  predicate Within(ratings: seq<real>, lo: int, hi: int) {
    forall i :: 0 <= i < |ratings| ==> lo as real <= ratings[i] <= hi as real
  }

  /** Bounds on the ratings bound their sum. */
  lemma {:induction false} SumWithin(ratings: seq<real>, lo: int, hi: int)
    requires Within(ratings, lo, hi)
    ensures (|ratings| * lo) as real <= Sum(ratings) <= (|ratings| * hi) as real
  {
    if |ratings| > 0 {
      SumWithin(ratings[1..], lo, hi);
      assert (|ratings| * lo) as real == lo as real + ((|ratings| - 1) * lo) as real;
      assert (|ratings| * hi) as real == hi as real + ((|ratings| - 1) * hi) as real;
    }
  }

  /** Dividing bounds on a total by a positive count bounds the mean. */
  lemma MeanWithin(total: real, n: real, lo: real, hi: real)
    requires n > 0.0 && n * lo <= total <= n * hi
    ensures lo <= total / n <= hi
  {
    var mean := total / n;
    assert total == n * mean;
  }

  /** For whole-star ratings between `lo` and `hi`, the rounded mean stays between `lo` and `hi`
      stars: rounding cannot push it past a whole number of stars. */
  lemma AverageWithin(ratings: seq<real>, lo: int, hi: int)
    requires |ratings| > 0 && Within(ratings, lo, hi)
    ensures 10 * lo <= AverageTenths(ratings) <= 10 * hi
  {
    var n := |ratings| as real;
    SumWithin(ratings, lo, hi);
    assert (|ratings| * lo) as real == n * lo as real;
    assert (|ratings| * hi) as real == n * hi as real;
    MeanWithin(Sum(ratings), n, lo as real, hi as real);
  }

  /** Worked examples of the rule: one five-star review rates 5.0; adding a three-star review
      gives 4.0; ratings 3, 4, 4, 4 average 3.75, which rounds up to 3.8; 1 and 2 give 1.5;
      four ratings of 4, 4, 4 and 5 give 4.25, which rounds up to 4.3. */
  lemma AverageExamples()
    ensures AverageTenths([5.0]) == 50
    ensures AverageTenths([5.0, 3.0]) == 40
    ensures AverageTenths([3.0, 4.0, 4.0, 4.0]) == 38
    ensures AverageTenths([1.0, 2.0]) == 15
    ensures AverageTenths([4.0, 4.0, 4.0, 5.0]) == 43
  {
    assert Sum([5.0, 3.0]) == 8.0;
    assert Sum([3.0, 4.0, 4.0, 4.0]) == 15.0;
    assert Sum([1.0, 2.0]) == 3.0;
    assert Sum([4.0, 4.0, 4.0, 5.0]) == 17.0;
  }
}
