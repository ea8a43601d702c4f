/** The simple moving average that the strategy reads, described only by its
    trailing-mean contract: one value per bar, unavailable during warm-up. */
module MovingAverage {
  import opened Basics

  /** Sum of a sequence of closing prices, accumulated from the front. */
  function Sum(xs: seq<real>): real
  {
    if |xs| == 0 then 0.0 else Sum(xs[..|xs| - 1]) + xs[|xs| - 1]
  }

  /** The moving-average value at the latest bar of `prices` (the closes seen
      so far): unavailable until `period` closes exist, and then the mean of
      the last `period` of them. Later bars are not an argument, so there is
      no look-ahead. */
  function SmaLast(prices: seq<real>, period: nat): (r: Option<real>)
    requires period >= 1
    ensures r.None? <==> |prices| < period
    ensures r.Some? ==> r.value * period as real == Sum(prices[|prices| - period..])
  {
    if |prices| < period then None
    else Some(Sum(prices[|prices| - period..]) / period as real)
  }

  lemma {:induction false} SumOfConstant(xs: seq<real>, c: real)
    requires forall i :: 0 <= i < |xs| ==> xs[i] == c
    ensures Sum(xs) == |xs| as real * c
  {
    if |xs| > 0 {
      SumOfConstant(xs[..|xs| - 1], c);
    }
  }

  /** A window of equal closes averages to that close. */
  lemma SmaOfConstantWindow(prices: seq<real>, period: nat, c: real)
    requires period >= 1 && |prices| >= period
    requires forall i :: |prices| - period <= i < |prices| ==> prices[i] == c
    ensures SmaLast(prices, period) == Some(c)
  {
    var w := prices[|prices| - period..];
    SumOfConstant(w, c);
    assert |w| == period;
    assert Sum(w) / period as real == c;
  }

  /** If every close lies at or below `x`, the sum is at most `|xs|` times `x`. */
  lemma {:induction false} SumBelow(xs: seq<real>, x: real)
    requires forall i :: 0 <= i < |xs| ==> xs[i] <= x
    ensures Sum(xs) <= |xs| as real * x
  {
    if |xs| > 0 {
      SumBelow(xs[..|xs| - 1], x);
    }
  }

  lemma {:induction false} SumStrictlyBelow(xs: seq<real>, x: real, j: nat)
    requires j < |xs| && xs[j] < x
    requires forall i :: 0 <= i < |xs| ==> xs[i] <= x
    ensures Sum(xs) < |xs| as real * x
  {
    var front := xs[..|xs| - 1];
    if j == |xs| - 1 {
      SumBelow(front, x);
    } else {
      SumStrictlyBelow(front, x, j);
    }
  }

  /** A window whose closes are all at most `x`, one of them strictly less,
      averages strictly below `x`. */
  lemma SmaBelowWindowMax(prices: seq<real>, period: nat, x: real, j: nat)
    requires period >= 1 && |prices| >= period
    requires |prices| - period <= j < |prices| && prices[j] < x
    requires forall i :: |prices| - period <= i < |prices| ==> prices[i] <= x
    ensures SmaLast(prices, period).Some? && SmaLast(prices, period).value < x
  {
    var w := prices[|prices| - period..];
    SumStrictlyBelow(w, x, j - (|prices| - period));
  }

  /** A close above a flat stretch that covers the rest of the window lies
      strictly above the average. */
  lemma BreakoutAboveAverage(prices: seq<real>, period: nat, c: real)
    requires period >= 2 && |prices| >= period
    requires forall i :: |prices| - period <= i < |prices| - 1 ==> prices[i] == c
    requires prices[|prices| - 1] > c
    ensures SmaLast(prices, period).Some? && SmaLast(prices, period).value < prices[|prices| - 1]
  {
    SmaBelowWindowMax(prices, period, prices[|prices| - 1], |prices| - 2);
  }
}
