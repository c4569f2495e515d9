/** Moving averages, RSI and Bollinger bands, over exact reals. */
module Indicators {
  import opened RealSeq
  import opened Wrappers

  // ---------------------------------------------------------------- simple moving average

  /** The `period` values that end at `i`. */
  function Window(values: seq<real>, period: int, i: int): (w: seq<real>)
    requires 0 < period && period - 1 <= i < |values|
    ensures |w| == period
  {
    values[i - period + 1..i + 1]
  }

  /** The true mean of each full window, nothing during the warm-up. */
  function SmaAt(values: seq<real>, period: int, i: nat): Option<real>
    requires i < |values|
  {
    if 0 < period <= i + 1 then Some(Mean(Window(values, period, i))) else None
  }

  /** The values the running sum covers before step `i`. */
  function Running(values: seq<real>, period: int, i: nat): seq<real>
    requires 0 < period && i <= |values|
  {
    values[if i < period then 0 else i - period..i]
  }

  lemma RunningSlides(values: seq<real>, period: int, i: nat)
    requires 0 < period && i < |values|
    ensures Sum(Running(values, period, i + 1)) ==
      Sum(Running(values, period, i)) + values[i] - if i >= period then values[i - period] else 0.0
  {
    var from := if i < period then 0 else i - period;
    var wide := values[from..i + 1];
    assert wide[..i - from] == values[from..i];
    if i >= period {
      SumFront(wide);
      assert wide[1..] == values[from + 1..i + 1];
    }
  }

  /** The running sum: add the newest value, drop the one that leaves the window. */
  method Sma(values: seq<real>, period: int) returns (out: seq<Option<real>>)
    ensures |out| == |values| && forall i :: 0 <= i < |values| ==> out[i] == SmaAt(values, period, i)
  {
    hide Over;
    hide Sum;
    var a := new Option<real>[|values|](_ => None);
    if period <= 0 { return a[..]; }
    var sum := 0.0;
    assert Running(values, period, 0) == [];
    SumOfNothing();
    for i := 0 to |values|
      invariant sum == Sum(Running(values, period, i))
      invariant forall j :: 0 <= j < |values| ==> a[j] == if j < i then SmaAt(values, period, j) else None
    {
      RunningSlides(values, period, i);
      sum := sum + values[i];
      if i >= period { sum := sum - values[i - period]; }
      if i >= period - 1 {
        assert Running(values, period, i + 1) == Window(values, period, i);
        a[i] := Some(Over(sum, period as real));
      }
      hide Running;
      hide Window;
    }
    return a[..];
  }

  lemma SumOfNothing()
    ensures Sum([]) == 0.0
  {
  }

  /** The `period` values up to `i` over the period; nothing before there are that many. */
  lemma SmaIsMean(values: seq<real>, period: int, i: nat)
    requires i < |values|
    ensures SmaAt(values, period, i) ==
      if 1 <= period <= i + 1 then Some(Over(Sum(values[i + 1 - period..i + 1]), period as real)) else None
  {
    hide Sum;
    hide Over;
    if 1 <= period <= i + 1 { assert i + 1 - period == i - period + 1; }
  }

  // ---------------------------------------------------------------- exponential moving average

  function Alpha(period: int): real
    requires period > 0
  {
    Over(2.0, period as real + 1.0)
  }

  function EmaAt(values: seq<real>, period: int, i: int): real
    requires 0 < period && period - 1 <= i < |values|
    decreases i
  {
    if i == period - 1 then Mean(values[..period])
    else
      var k := Alpha(period);
      Times(values[i], k) + Times(EmaAt(values, period, i - 1), 1.0 - k)
  }

  lemma EmaUnfolds(values: seq<real>, period: int, i: int)
    requires 0 < period <= i < |values|
    ensures EmaAt(values, period, i) ==
      Times(values[i], Alpha(period)) + Times(EmaAt(values, period, i - 1), 1.0 - Alpha(period))
  {
  }

  lemma EmaStarts(values: seq<real>, period: int)
    requires 0 < period <= |values|
    ensures EmaAt(values, period, period - 1) == Mean(values[..period])
  {
  }

  method Ema(values: seq<real>, period: int) returns (out: seq<Option<real>>)
    ensures |out| == |values|
    ensures forall i :: 0 <= i < |values| ==>
      out[i] == if 0 < period <= i + 1 then Some(EmaAt(values, period, i)) else None
  {
    hide Times;
    hide Over;
    hide Mean;
    hide EmaAt;
    var a := new Option<real>[|values|](_ => None);
    if period <= 0 || |values| < period { return a[..]; }
    var k := Over(2.0, period as real + 1.0);
    var prev := Mean(values[..period]);
    EmaStarts(values, period);
    a[period - 1] := Some(prev);
    for i := period to |values|
      invariant prev == EmaAt(values, period, i - 1)
      invariant forall j :: 0 <= j < |values| ==>
        a[j] == if period - 1 <= j < i then Some(EmaAt(values, period, j)) else None
    {
      EmaUnfolds(values, period, i);
      prev := Times(values[i], k) + Times(prev, 1.0 - k);
      a[i] := Some(prev);
    }
    return a[..];
  }

  /** The first average is the mean of the first `period` values; each later one weighs the new value 2 and the
      average before it `period` - 1, out of `period` + 1. */
  lemma EmaSteps(values: seq<real>, period: int, i: int)
    requires 1 <= period && period - 1 <= i < |values|
    ensures i == period - 1 ==> Times(EmaAt(values, period, i), period as real) == Sum(values[..period])
    ensures i >= period ==>
      Times(EmaAt(values, period, i), period as real + 1.0) ==
        2.0 * values[i] + Times(EmaAt(values, period, i - 1), period as real - 1.0)
  {
    if i == period - 1 {
      EmaStarts(values, period);
      OverTimes(Sum(values[..period]), period as real);
    } else {
      EmaUnfolds(values, period, i);
      hide EmaAt;
      OverTimes(2.0, period as real + 1.0);
      WeighedStep(values[i], EmaAt(values, period, i - 1), Alpha(period), period as real + 1.0);
    }
  }

  lemma WeighedStep(v: real, e: real, k: real, n: real)
    requires Times(k, n) == 2.0
    ensures Times(Times(v, k) + Times(e, 1.0 - k), n) == 2.0 * v + Times(e, n - 2.0)
  {
    assert v * k * n == v * (k * n) && e * k * n == e * (k * n);
  }

  function Pow(b: real, n: nat): real {
    if n == 0 then 1.0 else Times(b, Pow(b, n - 1))
  }

  /** The weight of value `j` among the first `n`: geometric, the seed mean decaying as one block. */
  function Weight(period: int, n: int, j: int): real
    requires 0 < period <= n && 0 <= j < n
  {
    var k := Alpha(period);
    if j < period then Times(Pow(1.0 - k, n - period), Over(1.0, period as real))
    else Times(Pow(1.0 - k, n - 1 - j), k)
  }

  function Weights(period: int, n: int): (w: seq<real>)
    requires 0 < period <= n
    ensures |w| == n
  {
    seq(n, j requires 0 <= j < n => Weight(period, n, j))
  }

  lemma AlphaIsWeight(period: int)
    requires period > 0
    ensures 0.0 < Alpha(period) <= 1.0
  {
  }

  lemma {:induction false} PowNonNegative(b: real, n: nat)
    requires b >= 0.0
    ensures Pow(b, n) >= 0.0
  {
    if n > 0 {
      PowNonNegative(b, n - 1);
      TimesMonotone(0.0, Pow(b, n - 1), b);
      TimesIsZero(b, 0.0);
      hide Times;
    }
  }

  lemma WeightDecays(period: int, n: int, j: int)
    requires 0 < period <= n && 0 <= j < n
    ensures Weight(period, n + 1, j) == Times(1.0 - Alpha(period), Weight(period, n, j))
  {
    hide Times;
    hide Over;
    var k := Alpha(period);
    if j < period {
      TimesAssociates(1.0 - k, Pow(1.0 - k, n - period), Over(1.0, period as real));
    } else {
      TimesAssociates(1.0 - k, Pow(1.0 - k, n - 1 - j), k);
    }
  }

  /** One more value scales the old weights and appends alpha. */
  lemma WeightsStep(period: int, n: int)
    requires 0 < period <= n
    ensures var w := Weights(period, n + 1);
      IsMultiple(w[..n], 1.0 - Alpha(period), Weights(period, n)) && w[n] == Alpha(period)
  {
    hide Times;
    hide Over;
    TimesOne(Alpha(period));
    assert Weight(period, n + 1, n) == Alpha(period);
    hide Weight;
    hide Alpha;
    forall j | 0 <= j < n
      ensures Weights(period, n + 1)[..n][j] == Times(1.0 - Alpha(period), Weights(period, n)[j])
    {
      WeightDecays(period, n, j);
    }
  }

  lemma SeedWeights(period: int)
    requires period > 0
    ensures forall j :: 0 <= j < period ==> Weights(period, period)[j] == Over(1.0, period as real)
  {
    TimesOne(Over(1.0, period as real));
    hide Times;
    hide Over;
    forall j | 0 <= j < period ensures Weight(period, period, j) == Over(1.0, period as real) {}
    hide Weight;
  }

  lemma {:induction false} SumOfMultiple(u: seq<real>, k: real, v: seq<real>)
    requires IsMultiple(u, k, v)
    ensures Sum(u) == Times(k, Sum(v))
  {
    hide Times;
    if u == [] {
      TimesIsZero(k, 0.0);
    } else {
      var n := |u| - 1;
      SumOfMultiple(u[..n], k, v[..n]);
      TimesDistributesRight(k, Sum(v[..n]), v[n]);
    }
  }

  lemma {:induction false} WeightsSumToOne(period: int, n: int)
    requires 0 < period <= n
    ensures Sum(Weights(period, n)) == 1.0
    ensures NonNegative(Weights(period, n))
    decreases n
  {
    var w, k := Weights(period, n), Alpha(period);
    AlphaIsWeight(period);
    hide Alpha;
    if n == period {
      var seed := Over(1.0, period as real);
      SeedWeights(period);
      hide Weights;
      SumOfConstant(w, seed);
      OverTimes(1.0, period as real);
      SeedIsPositive(period);
    } else {
      WeightsSumToOne(period, n - 1);
      WeightsStep(period, n - 1);
      SumOfMultiple(w[..n - 1], 1.0 - k, Weights(period, n - 1));
      TimesOne(1.0 - k);
      var old' := Weights(period, n - 1);
      forall j | 0 <= j < n ensures w[j] >= 0.0 {
        if j < n - 1 {
          assert w[j] == w[..n - 1][j] == Times(1.0 - k, old'[j]);
          ProductNonNegative(1.0 - k, old'[j]);
        }
      }
      hide Times;
      hide Weights;
    }
  }

  lemma ProductNonNegative(a: real, b: real)
    requires a >= 0.0 && b >= 0.0
    ensures Times(a, b) >= 0.0
  {
  }

  lemma SeedIsPositive(period: int)
    requires period > 0
    ensures Over(1.0, period as real) > 0.0
  {
  }

  lemma {:induction false} DotWithConstant(w: seq<real>, c: real, v: seq<real>)
    requires |w| == |v| && forall i :: 0 <= i < |w| ==> w[i] == c
    ensures Dot(w, v) == Times(c, Sum(v))
  {
    hide Times;
    if w == [] {
      TimesIsZero(c, 0.0);
    } else {
      var n := |w| - 1;
      DotWithConstant(w[..n], c, v[..n]);
      TimesDistributesRight(c, Sum(v[..n]), v[n]);
    }
  }

  lemma SeedMean(sum: real, n: real)
    requires n != 0.0
    ensures Over(sum, n) == Times(Over(1.0, n), sum)
  {
  }

  /** The recursion in closed form: a weighted sum of every value seen so far. */
  lemma {:induction false} EmaIsWeightedSum(values: seq<real>, period: int, i: int)
    requires 0 < period && period - 1 <= i < |values|
    ensures EmaAt(values, period, i) == Dot(Weights(period, i + 1), values[..i + 1])
    decreases i
  {
    hide Times;
    hide Over;
    var w, v := Weights(period, i + 1), values[..i + 1];
    if i == period - 1 {
      SeedWeights(period);
      hide Weights;
      DotWithConstant(w, Over(1.0, period as real), v);
      SeedMean(Sum(v), period as real);
    } else {
      var k := Alpha(period);
      EmaIsWeightedSum(values, period, i - 1);
      WeightsStep(period, i);
      hide Weights;
      hide Alpha;
      assert v[..i] == values[..i];
      DotOfMultiple(w[..i], 1.0 - k, Weights(period, i), values[..i]);
      TimesCommutes(k, values[i]);
      TimesCommutes(1.0 - k, EmaAt(values, period, i - 1));
    }
  }

  lemma {:induction false} WeightedSumIsBetween(w: seq<real>, v: seq<real>, lo: real, hi: real)
    requires |w| == |v| && NonNegative(w) && forall i :: 0 <= i < |v| ==> lo <= v[i] <= hi
    ensures Times(lo, Sum(w)) <= Dot(w, v) <= Times(hi, Sum(w))
  {
    hide Times;
    if w == [] {
      TimesIsZero(lo, 0.0);
      TimesIsZero(hi, 0.0);
    } else {
      var n := |w| - 1;
      WeightedSumIsBetween(w[..n], v[..n], lo, hi);
      TimesDistributesRight(lo, Sum(w[..n]), w[n]);
      TimesDistributesRight(hi, Sum(w[..n]), w[n]);
      TimesMonotone(lo, v[n], w[n]);
      TimesMonotone(v[n], hi, w[n]);
      TimesCommutes(lo, w[n]);
      TimesCommutes(hi, w[n]);
    }
  }

  /** The average stays within the range of the values it has seen. */
  lemma EmaIsBetween(values: seq<real>, period: int, i: int, lo: real, hi: real)
    requires 0 < period && period - 1 <= i < |values|
    requires forall j :: 0 <= j <= i ==> lo <= values[j] <= hi
    ensures lo <= EmaAt(values, period, i) <= hi
  {
    EmaIsWeightedSum(values, period, i);
    WeightsSumToOne(period, i + 1);
    hide Weights;
    hide EmaAt;
    WeightedSumIsBetween(Weights(period, i + 1), values[..i + 1], lo, hi);
    TimesOne(lo);
    TimesOne(hi);
    hide Times;
  }

  // ---------------------------------------------------------------- relative strength index

  function Negated(values: seq<real>): (t: seq<real>)
    ensures |t| == |values|
  {
    seq(|values|, i requires 0 <= i < |values| => -values[i])
  }

  /** The gain of one step; the loss is the gain of the negated series. */
  function Rise(values: seq<real>, i: int): real
    requires 1 <= i < |values|
  {
    Max2(values[i] - values[i - 1], 0.0)
  }

  function Rises(values: seq<real>, n: int): real
    requires 0 <= n < |values|
    decreases n
  {
    if n == 0 then 0.0 else Rises(values, n - 1) + Rise(values, n)
  }

  function Smoothed(avg: real, x: real, period: int): real
    requires period > 0
  {
    Over(Times(avg, period as real - 1.0) + x, period as real)
  }

  /** Wilder's average of the gains. */
  function Average(values: seq<real>, period: int, i: int): real
    requires 1 <= period <= i < |values|
    decreases i
  {
    if i == period then Over(Rises(values, period), period as real)
    else Smoothed(Average(values, period, i - 1), Rise(values, i), period)
  }

  function ToRsi(g: real, l: real): real
    requires g >= 0.0 && l >= 0.0
  {
    if l == 0.0 then 100.0
    else
      OnePlusRatio(g, l);
      100.0 - Over(100.0, 1.0 + Over(g, l))
  }

  lemma OnePlusRatio(g: real, l: real)
    requires g >= 0.0 && l > 0.0
    ensures 1.0 + Over(g, l) >= 1.0
  {
  }

  lemma SmoothedIsNonNegative(avg: real, x: real, period: int)
    requires period > 0 && avg >= 0.0 && x >= 0.0
    ensures Smoothed(avg, x, period) >= 0.0
    ensures Smoothed(avg, x, period) == 0.0 <==> x == 0.0 && (period == 1 || avg == 0.0)
  {
    var p := period as real;
    ProductNonNegative(avg, p - 1.0);
    TimesIsZero(avg, p - 1.0);
    OverIsNonNegative(Times(avg, p - 1.0) + x, p);
    hide Times;
    hide Over;
  }

  lemma OverIsNonNegative(a: real, b: real)
    requires a >= 0.0 && b > 0.0
    ensures Over(a, b) >= 0.0 && (Over(a, b) == 0.0 <==> a == 0.0)
  {
  }

  lemma {:induction false} RisesAreNonNegative(values: seq<real>, n: int)
    requires 0 <= n < |values|
    ensures Rises(values, n) >= 0.0
    ensures Rises(values, n) == 0.0 <==> forall j :: 1 <= j <= n ==> Rise(values, j) == 0.0
    decreases n
  {
    if n > 0 {
      RisesAreNonNegative(values, n - 1);
    }
  }

  /** The average forgets nothing, except with period 1, where it is the last gain. */
  lemma {:induction false} AverageIsNonNegative(values: seq<real>, period: int, i: int)
    requires 1 <= period <= i < |values|
    ensures Average(values, period, i) >= 0.0
    ensures Average(values, period, i) == 0.0 <==>
      forall j :: (if period == 1 then i else 1) <= j <= i ==> Rise(values, j) == 0.0
    decreases i
  {
    hide Over;
    hide Smoothed;
    if i == period {
      RisesAreNonNegative(values, period);
      OverIsNonNegative(Rises(values, period), period as real);
      hide Rises;
    } else {
      AverageIsNonNegative(values, period, i - 1);
      SmoothedIsNonNegative(Average(values, period, i - 1), Rise(values, i), period);
    }
    hide Rise;
  }

  function RsiAt(values: seq<real>, period: int, i: int): real
    requires 1 <= period <= i < |values|
  {
    AverageIsNonNegative(values, period, i);
    AverageIsNonNegative(Negated(values), period, i);
    ToRsi(Average(values, period, i), Average(Negated(values), period, i))
  }

  lemma AverageUnfolds(values: seq<real>, period: int, i: int)
    requires 1 <= period < i < |values|
    ensures Average(values, period, i) == Smoothed(Average(values, period, i - 1), Rise(values, i), period)
  {
  }

  /** The loop that seeds the averages. */
  method Seed(values: seq<real>, period: int) returns (gain: real, loss: real)
    requires 1 <= period < |values|
    ensures gain == Rises(values, period) && loss == Rises(Negated(values), period)
  {
    gain, loss := 0.0, 0.0;
    for i := 1 to period + 1
      invariant gain == Rises(values, i - 1) && loss == Rises(Negated(values), i - 1)
    {
      var d := values[i] - values[i - 1];
      if d >= 0.0 { gain := gain + d; } else { loss := loss - d; }
    }
  }

  lemma RiseOfStep(values: seq<real>, i: int)
    requires 1 <= i < |values|
    ensures var d := values[i] - values[i - 1];
      Rise(values, i) == Max2(d, 0.0) >= 0.0 && Rise(Negated(values), i) == Max2(-d, 0.0) >= 0.0
  {
  }

  /** The two averages at `i`, as `ToRsi` may take them. */
  ghost predicate AreAverages(values: seq<real>, period: int, i: int, g: real, l: real)
    requires 1 <= period <= i < |values|
  {
    g == Average(values, period, i) >= 0.0 && l == Average(Negated(values), period, i) >= 0.0
  }

  lemma AveragesStart(values: seq<real>, period: int)
    requires 1 <= period < |values|
    ensures AreAverages(values, period, period,
      Over(Rises(values, period), period as real), Over(Rises(Negated(values), period), period as real))
  {
    hide Over;
    AverageIsNonNegative(values, period, period);
    AverageIsNonNegative(Negated(values), period, period);
  }

  lemma AveragesStep(values: seq<real>, period: int, i: int, g: real, l: real)
    requires 1 <= period < i < |values| && AreAverages(values, period, i - 1, g, l)
    ensures var d := values[i] - values[i - 1];
      AreAverages(values, period, i, Smoothed(g, Max2(d, 0.0), period), Smoothed(l, Max2(-d, 0.0), period))
  {
    hide Smoothed;
    AverageIsNonNegative(values, period, i);
    AverageIsNonNegative(Negated(values), period, i);
    AverageUnfolds(values, period, i);
    AverageUnfolds(Negated(values), period, i);
    RiseOfStep(values, i);
    hide Average;
    hide Rise;
  }

  lemma AveragesGiveRsi(values: seq<real>, period: int, i: int, g: real, l: real)
    requires 1 <= period <= i < |values| && AreAverages(values, period, i, g, l)
    ensures g >= 0.0 && l >= 0.0 && ToRsi(g, l) == RsiAt(values, period, i)
  {
    hide ToRsi;
    hide Average;
  }

  /** An array element of the source: null, not a number, or a number. */
  datatype Reading = Null | NaN | Value(v: real)

  /** The seed over gains and losses, then Wilder's recursion: nothing before index `period`, the index from there on,
      and not a number anywhere for a period that is not positive. */
  method Rsi(values: seq<real>, period: int) returns (out: seq<Reading>)
    ensures |out| == |values|
    ensures forall i :: 0 <= i < |values| ==>
      out[i] == if period <= 0 then NaN else if i >= period then Value(RsiAt(values, period, i)) else Null
  {
    hide Over;
    hide Smoothed;
    hide ToRsi;
    hide RsiAt;
    hide AreAverages;
    var a := new Reading[|values|](_ => Null);
    if |values| <= period { return a[..]; }
    if period <= 0 {
      // 0 / 0 for period 0; below it the recursion starts before the series, and its first step is not a number.
      return seq(|values|, _ => NaN);
    }
    var gain, loss := Seed(values, period);
    var avgGain, avgLoss := Over(gain, period as real), Over(loss, period as real);
    AveragesStart(values, period);
    AveragesGiveRsi(values, period, period, avgGain, avgLoss);
    a[period] := Value(ToRsi(avgGain, avgLoss));
    for i := period + 1 to |values|
      invariant AreAverages(values, period, i - 1, avgGain, avgLoss)
      invariant forall j :: 0 <= j < |values| ==>
        a[j] == if period <= j < i then Value(RsiAt(values, period, j)) else Null
    {
      var d := values[i] - values[i - 1];
      AveragesStep(values, period, i, avgGain, avgLoss);
      avgGain := Smoothed(avgGain, Max2(d, 0.0), period);
      avgLoss := Smoothed(avgLoss, Max2(-d, 0.0), period);
      AveragesGiveRsi(values, period, i, avgGain, avgLoss);
      a[i] := Value(ToRsi(avgGain, avgLoss));
    }
    return a[..];
  }

  lemma RsiOfAverages(g: real, l: real)
    requires g >= 0.0 && l >= 0.0
    ensures 0.0 <= ToRsi(g, l) <= 100.0
    ensures ToRsi(l, g) == 100.0 - ToRsi(g, l) <==> !(g == 0.0 && l == 0.0)
  {
    if g > 0.0 && l > 0.0 {
      RsiIsShare(g, l);
      RsiIsShare(l, g);
      OverIsNonNegative(g, g + l);
      OverIsNonNegative(l, g + l);
      ShareSum(g, l);
      hide Over;
    }
  }

  lemma RsiIsShare(g: real, l: real)
    requires g > 0.0 && l > 0.0
    ensures ToRsi(g, l) == 100.0 * Over(g, g + l)
  {
    var r := Over(g, l);
    OverTimes(g, l);
    var q := Over(100.0, 1.0 + r);
    OverTimes(100.0, 1.0 + r);
    assert r * l == g;
    assert q * (1.0 + r) == 100.0;
    assert q * (l + g) == 100.0 * l by {
      assert q * (l + r * l) == q * (1.0 + r) * l;
    }
    ShareOfWhole(q, g, l);
  }

  lemma ShareOfWhole(q: real, g: real, l: real)
    requires g > 0.0 && l > 0.0 && q * (l + g) == 100.0 * l
    ensures 100.0 - q == 100.0 * Over(g, g + l)
  {
    var s := Over(g, g + l);
    OverTimes(g, g + l);
    assert s * (g + l) == g;
    assert (100.0 - q) * (g + l) == 100.0 * g;
    SameProduct(100.0 - q, 100.0 * s, g + l);
  }

  lemma SameProduct(a: real, b: real, c: real)
    requires c != 0.0 && a * c == b * c
    ensures a == b
  {
  }

  lemma ShareSum(g: real, l: real)
    requires g + l > 0.0
    ensures Over(g, g + l) + Over(l, g + l) == 1.0 && Over(l, l + g) == Over(l, g + l)
  {
  }

  lemma RsiIsPercentage(values: seq<real>, period: int, i: int)
    requires 1 <= period <= i < |values|
    ensures 0.0 <= RsiAt(values, period, i) <= 100.0
  {
    AverageIsNonNegative(values, period, i);
    AverageIsNonNegative(Negated(values), period, i);
    RsiOfAverages(Average(values, period, i), Average(Negated(values), period, i));
    hide ToRsi;
    hide Average;
  }

  /** Both averages are zero exactly when every step they remember was flat. */
  lemma AveragesVanish(values: seq<real>, period: int, i: int)
    requires 1 <= period <= i < |values|
    ensures Average(values, period, i) == 0.0 && Average(Negated(values), period, i) == 0.0 <==>
      forall j :: (if period == 1 then i else 1) <= j <= i ==> values[j] == values[j - 1]
  {
    var falls := Negated(values);
    AverageIsNonNegative(values, period, i);
    AverageIsNonNegative(falls, period, i);
    hide Average;
    var from := if period == 1 then i else 1;
    forall j | from <= j <= i
      ensures values[j] == values[j - 1] <==> Rise(values, j) == 0.0 && Rise(falls, j) == 0.0
    {
    }
    hide Negated;
    hide Rise;
  }

  /** The mirror law holds exactly when some step that the averages remember was not flat. */
  lemma RsiMirrors(values: seq<real>, period: int, i: int)
    requires 1 <= period <= i < |values|
    ensures RsiAt(Negated(values), period, i) == 100.0 - RsiAt(values, period, i) <==>
      exists j :: (if period == 1 then i else 1) <= j <= i && values[j] != values[j - 1]
  {
    var falls := Negated(values);
    assert Negated(falls) == values;
    AveragesVanish(values, period, i);
    RsiOfNegated(values, period, i);
    hide RsiAt;
    hide Average;
    hide Negated;
  }

  lemma RsiOfNegated(values: seq<real>, period: int, i: int)
    requires 1 <= period <= i < |values|
    ensures RsiAt(Negated(values), period, i) == 100.0 - RsiAt(values, period, i) <==>
      !(Average(values, period, i) == 0.0 && Average(Negated(values), period, i) == 0.0)
  {
    var falls := Negated(values);
    assert Negated(falls) == values;
    AverageIsNonNegative(values, period, i);
    AverageIsNonNegative(falls, period, i);
    RsiOfAverages(Average(values, period, i), Average(falls, period, i));
    hide ToRsi;
    hide Average;
    hide Rise;
  }

  lemma ScaledRise(values: seq<real>, c: real, d: real, i: int)
    requires 1 <= i < |values| && c > 0.0
    ensures Rise(Affine(values, c, d), i) == Times(c, Rise(values, i))
  {
    var step := values[i] - values[i - 1];
    TimesDistributesRight(c, values[i], -values[i - 1]);
    TimesNegated(c, values[i - 1]);
    TimesIsZero(c, 0.0);
    if step >= 0.0 { TimesMonotone(0.0, step, c); } else { TimesMonotone(step, 0.0, c); }
    hide Times;
  }

  lemma {:induction false} ScaledRises(values: seq<real>, c: real, d: real, n: int)
    requires 0 <= n < |values| && c > 0.0
    ensures Rises(Affine(values, c, d), n) == Times(c, Rises(values, n))
    decreases n
  {
    hide Times;
    hide Affine;
    hide Rise;
    if n == 0 {
      TimesIsZero(c, 0.0);
    } else {
      ScaledRises(values, c, d, n - 1);
      ScaledRise(values, c, d, n);
      TimesDistributesRight(c, Rises(values, n - 1), Rise(values, n));
    }
  }

  lemma ScaledSmoothing(c: real, avg: real, x: real, period: int)
    requires period > 0
    ensures Smoothed(Times(c, avg), Times(c, x), period) == Times(c, Smoothed(avg, x, period))
  {
    var p := period as real;
    TimesAssociates(c, avg, p - 1.0);
    TimesDistributesRight(c, Times(avg, p - 1.0), x);
    ScaledOver(c, Times(avg, p - 1.0) + x, p);
    hide Times;
    hide Over;
  }

  lemma ScaledOver(c: real, a: real, b: real)
    requires b != 0.0
    ensures Over(Times(c, a), b) == Times(c, Over(a, b))
  {
  }

  lemma {:induction false} ScaledAverage(values: seq<real>, period: int, i: int, c: real, d: real)
    requires 1 <= period <= i < |values| && c > 0.0
    ensures Average(Affine(values, c, d), period, i) == Times(c, Average(values, period, i))
    decreases i
  {
    hide Times;
    hide Over;
    hide Affine;
    hide Smoothed;
    if i == period {
      ScaledRises(values, c, d, period);
      ScaledOver(c, Rises(values, period), period as real);
    } else {
      ScaledAverage(values, period, i - 1, c, d);
      ScaledRise(values, c, d, i);
      ScaledSmoothing(c, Average(values, period, i - 1), Rise(values, i), period);
    }
    hide Rises;
    hide Rise;
  }

  lemma RatioOfScaled(c: real, g: real, l: real)
    requires c > 0.0 && g >= 0.0 && l >= 0.0
    ensures Times(c, g) >= 0.0 && Times(c, l) >= 0.0
    ensures ToRsi(Times(c, g), Times(c, l)) == ToRsi(g, l)
  {
    ProductNonNegative(c, g);
    ProductNonNegative(c, l);
    TimesIsZero(c, l);
    if l > 0.0 {
      CancelScale(c, g, l);
    }
    hide Over;
    hide Times;
  }

  lemma CancelScale(c: real, g: real, l: real)
    requires c > 0.0 && l > 0.0
    ensures Times(c, l) > 0.0 && Over(Times(c, g), Times(c, l)) == Over(g, l)
  {
  }

  /** RSI does not change under v -> c*v + d with c > 0. */
  lemma RsiIsScaleFree(values: seq<real>, period: int, i: int, c: real, d: real)
    requires 1 <= period <= i < |values| && c > 0.0
    ensures RsiAt(Affine(values, c, d), period, i) == RsiAt(values, period, i)
  {
    hide Times;
    var falls := Negated(values);
    assert Negated(Affine(values, c, d)) == Affine(falls, c, -d) by {
      forall j | 0 <= j < |values| ensures -Affine(values, c, d)[j] == Affine(falls, c, -d)[j] {
        TimesNegated(c, values[j]);
      }
    }
    hide Affine;
    hide Negated;
    ScaledAverage(values, period, i, c, d);
    ScaledAverage(falls, period, i, c, -d);
    AverageIsNonNegative(values, period, i);
    AverageIsNonNegative(falls, period, i);
    hide Average;
    RatioOfScaled(c, Average(values, period, i), Average(falls, period, i));
    hide ToRsi;
  }

  // ---------------------------------------------------------------- Wilder's average in closed form

  /** The gains of the first `n` steps, and the losses. */
  function Gains(values: seq<real>, n: nat): (gains: seq<real>)
    requires n < |values|
    ensures |gains| == n
  {
    seq(n, j requires 0 <= j < n => if values[j + 1] > values[j] then values[j + 1] - values[j] else 0.0)
  }

  function Losses(values: seq<real>, n: nat): (losses: seq<real>)
    requires n < |values|
    ensures |losses| == n
  {
    seq(n, j requires 0 <= j < n => if values[j + 1] < values[j] then values[j] - values[j + 1] else 0.0)
  }

  /** The part of the old average that one step keeps. */
  function Kept(period: int): real
    requires period > 0
  {
    Over(period as real - 1.0, period as real)
  }

  /** Step `j` among the first `n`: 1/period, times (period - 1)/period for every step after it, the seed's steps
      ageing as one block. */
  function WilderWeight(period: int, n: int, j: int): real
    requires 0 < period <= n && 0 <= j < n
  {
    Times(Pow(Kept(period), n - if j < period then period else j + 1), Over(1.0, period as real))
  }

  function WilderWeights(period: int, n: int): (w: seq<real>)
    requires 0 < period <= n
    ensures |w| == n
  {
    seq(n, j requires 0 <= j < n => WilderWeight(period, n, j))
  }

  lemma WilderAges(period: int, n: int, j: int)
    requires 0 < period <= n && 0 <= j < n
    ensures WilderWeight(period, n + 1, j) == Times(Kept(period), WilderWeight(period, n, j))
  {
    hide Times;
    hide Over;
    hide Kept;
    TimesAssociates(Kept(period), Pow(Kept(period), n - if j < period then period else j + 1), Over(1.0, period as real));
  }

  /** One more step scales the old weights and appends 1/period. */
  lemma WilderStep(period: int, n: int)
    requires 0 < period <= n
    ensures var w := WilderWeights(period, n + 1);
      IsMultiple(w[..n], Kept(period), WilderWeights(period, n)) && w[n] == Over(1.0, period as real)
  {
    TimesOne(Over(1.0, period as real));
    hide Times;
    hide Over;
    hide Kept;
    assert WilderWeight(period, n + 1, n) == Over(1.0, period as real);
    hide WilderWeight;
    forall j | 0 <= j < n
      ensures WilderWeights(period, n + 1)[..n][j] == Times(Kept(period), WilderWeights(period, n)[j])
    {
      WilderAges(period, n, j);
    }
  }

  lemma WilderSeed(period: int)
    requires period > 0
    ensures forall j :: 0 <= j < period ==> WilderWeights(period, period)[j] == Over(1.0, period as real)
  {
    TimesOne(Over(1.0, period as real));
    hide Times;
    hide Over;
    forall j | 0 <= j < period ensures WilderWeight(period, period, j) == Over(1.0, period as real) {}
    hide WilderWeight;
  }

  lemma {:induction false} SumOfGains(values: seq<real>, n: nat)
    requires n < |values|
    ensures Sum(Gains(values, n)) == Rises(values, n)
    decreases n
  {
    if n > 0 {
      SumOfGains(values, n - 1);
      assert Gains(values, n)[..n - 1] == Gains(values, n - 1);
    }
  }

  lemma SmoothedWeighs(avg: real, x: real, period: int)
    requires period > 0
    ensures Smoothed(avg, x, period) == Times(Kept(period), avg) + Times(Over(1.0, period as real), x)
  {
    var n := period as real;
    assert (avg * (n - 1.0) + x) / n == (n - 1.0) / n * avg + 1.0 / n * x;
  }

  /** Wilder's average is the geometrically weighted sum of every gain so far. */
  lemma {:induction false} AverageIsWeightedSum(values: seq<real>, period: int, i: int)
    requires 1 <= period <= i < |values|
    ensures Average(values, period, i) == Dot(WilderWeights(period, i), Gains(values, i))
    decreases i
  {
    hide Times;
    hide Over;
    hide Kept;
    var w, gains := WilderWeights(period, i), Gains(values, i);
    if i == period {
      WilderSeed(period);
      hide WilderWeights;
      DotWithConstant(w, Over(1.0, period as real), gains);
      SumOfGains(values, period);
      SeedMean(Sum(gains), period as real);
    } else {
      AverageIsWeightedSum(values, period, i - 1);
      WilderStep(period, i - 1);
      hide WilderWeights;
      assert gains[..i - 1] == Gains(values, i - 1) && gains[i - 1] == Rise(values, i);
      DotOfMultiple(w[..i - 1], Kept(period), WilderWeights(period, i - 1), gains[..i - 1]);
      SmoothedWeighs(Average(values, period, i - 1), Rise(values, i), period);
      hide Smoothed;
    }
  }

  /** The index is 100 without losses, else the gains' share, in percent, of all movement, each step weighed by age. */
  lemma RsiIsShareOfMovement(values: seq<real>, period: int, i: int)
    requires 1 <= period <= i < |values|
    ensures var w := WilderWeights(period, i);
      var gain, loss := Dot(w, Gains(values, i)), Dot(w, Losses(values, i));
      && gain >= 0.0 && loss >= 0.0
      && RsiAt(values, period, i) == if loss == 0.0 then 100.0 else 100.0 * Over(gain, gain + loss)
  {
    var g, l := Average(values, period, i), Average(Negated(values), period, i);
    AverageIsWeightedSum(values, period, i);
    AverageIsWeightedSum(Negated(values), period, i);
    assert Gains(Negated(values), i) == Losses(values, i);
    AverageIsNonNegative(values, period, i);
    AverageIsNonNegative(Negated(values), period, i);
    hide Average;
    hide WilderWeights;
    hide Dot;
    if g > 0.0 && l > 0.0 {
      RsiIsShare(g, l);
    } else if l > 0.0 {
      NoGains(l);
    }
    hide Over;
  }

  lemma NoGains(l: real)
    requires l > 0.0
    ensures ToRsi(0.0, l) == 0.0 == 100.0 * Over(0.0, 0.0 + l)
  {
  }

  // ---------------------------------------------------------------- Bollinger bands

  /** Population variance about `m`. */
  function Variance(w: seq<real>, m: real): real
    requires w != []
  {
    Over(Dot(Shifted(w, m), Shifted(w, m)), |w| as real)
  }

  lemma VarianceIsNonNegative(w: seq<real>, m: real)
    requires w != []
    ensures Variance(w, m) >= 0.0 && (Variance(w, m) == 0.0 <==> Flat(Shifted(w, m)))
    ensures Times(Variance(w, m), |w| as real) == Dot(Shifted(w, m), Shifted(w, m))
  {
    DotSelf(Shifted(w, m));
    OverIsNonNegative(Dot(Shifted(w, m), Shifted(w, m)), |w| as real);
    OverTimes(Dot(Shifted(w, m), Shifted(w, m)), |w| as real);
    hide Times;
    hide Over;
    hide Shifted;
    hide Dot;
    hide Flat;
  }

  /** mult times the standard deviation of a full window. */
  function HalfWidth(w: seq<real>, mult: real, root: real -> real): real
    requires w != []
  {
    Times(mult, root(Variance(w, Mean(w))))
  }

  /** The band a signed multiple of the deviation away from the mean of each full window. */
  function BandAt(values: seq<real>, period: int, mult: real, root: real -> real, i: nat): Option<real>
    requires i < |values|
  {
    if 0 < period <= i + 1 then
      var w := Window(values, period, i);
      Some(Mean(w) + HalfWidth(w, mult, root))
    else None
  }

  method Bollinger(values: seq<real>, period: int, mult: real, root: real -> real)
    returns (mid: seq<Option<real>>, upper: seq<Option<real>>, lower: seq<Option<real>>)
    ensures |mid| == |upper| == |lower| == |values|
    ensures forall i :: 0 <= i < |values| ==>
      && mid[i] == SmaAt(values, period, i)
      && upper[i] == BandAt(values, period, mult, root, i)
      && lower[i] == BandAt(values, period, -mult, root, i)
  {
    hide Times;
    hide Over;
    hide BandAt;
    mid := Sma(values, period);
    var a, b := new Option<real>[|values|](_ => None), new Option<real>[|values|](_ => None);
    NoBandsBefore(values, period, mult, root);
    NoBandsBefore(values, period, -mult, root);
    var i := if period >= 1 then period - 1 else 0;
    while i < |values|
      invariant 0 <= i
      invariant forall j :: 0 <= j < |values| ==>
        && a[j] == (if j < i then BandAt(values, period, mult, root, j) else None)
        && b[j] == (if j < i then BandAt(values, period, -mult, root, j) else None)
    {
      if mid[i].Some? {
        var m := mid[i].value;
        var acc := Scatter(values, period, i, m);
        var sd := root(Over(acc, period as real));
        a[i] := Some(m + Times(mult, sd));
        b[i] := Some(m - Times(mult, sd));
        BandOfScatter(values, period, mult, root, i, acc);
      } else {
        assert period <= 0 || i + 1 < period;
        NoBand(values, period, mult, root, i);
        NoBand(values, period, -mult, root, i);
      }
      hide SmaAt;
      i := i + 1;
    }
    upper, lower := a[..], b[..];
  }

  lemma NoBand(values: seq<real>, period: int, mult: real, root: real -> real, i: nat)
    requires i < |values| && (period <= 0 || i + 1 < period)
    ensures BandAt(values, period, mult, root, i) == None
  {
  }

  lemma NoBandsBefore(values: seq<real>, period: int, mult: real, root: real -> real)
    ensures forall i :: 0 <= i < |values| && i < period - 1 ==> BandAt(values, period, mult, root, i) == None
  {
  }

  lemma BandOfScatter(values: seq<real>, period: int, mult: real, root: real -> real, i: nat, acc: real)
    requires i < |values| && 0 < period <= i + 1
    requires var w := Window(values, period, i); acc == Dot(Shifted(w, Mean(w)), Shifted(w, Mean(w)))
    ensures var m, step := Mean(Window(values, period, i)), Times(mult, root(Over(acc, period as real)));
      BandAt(values, period, mult, root, i) == Some(m + step) && BandAt(values, period, -mult, root, i) == Some(m - step)
  {
    TimesNegated(mult, root(Over(acc, period as real)));
    hide Times;
    hide Over;
    hide Mean;
    hide Dot;
  }

  /** The inner accumulator loop. */
  method Scatter(values: seq<real>, period: int, i: int, m: real) returns (acc: real)
    requires 0 < period && period - 1 <= i < |values|
    ensures var u := Shifted(Window(values, period, i), m); acc == Dot(u, u)
  {
    hide Times;
    acc := 0.0;
    var start := i - period + 1;
    ghost var u := Shifted(Window(values, period, i), m);
    for j := start to i + 1
      invariant acc == Dot(u[..j - start], u[..j - start])
    {
      var p := u[..j - start + 1];
      assert p[..j - start] == u[..j - start];
      var d := values[j] - m;
      acc := acc + Times(d, d);
    }
    assert u[..period] == u;
  }

  /** How many values lie strictly outside the band of half width `h` about `m`. */
  function Outside(w: seq<real>, m: real, h: real): nat {
    if w == [] then 0
    else Outside(w[..|w| - 1], m, h) + if w[|w| - 1] > m + h || w[|w| - 1] < m - h then 1 else 0
  }

  lemma FarIsLarge(x: real, m: real, h: real)
    requires h >= 0.0 && (x > m + h || x < m - h)
    ensures Square(x - m) > Square(h)
  {
    NegatedSquare(x - m);
    SquareGrows(h, if x > m + h then x - m else m - x);
    hide Square;
  }

  lemma {:induction false} OutsideScatter(w: seq<real>, m: real, h: real)
    requires h >= 0.0
    ensures Times(Outside(w, m, h) as real, Square(h)) <= Dot(Shifted(w, m), Shifted(w, m))
  {
    hide Times;
    hide Square;
    if w == [] {
      TimesIsZero(0.0, Square(h));
    } else {
      var n := |w| - 1;
      var x := w[n];
      OutsideScatter(w[..n], m, h);
      assert Shifted(w, m)[..n] == Shifted(w[..n], m);
      SquareIsSelfTimes(x - m);
      SquareIsPositive(x - m);
      TimesOne(Square(h));
      TimesDistributes(Outside(w[..n], m, h) as real, 1.0, Square(h));
      if x > m + h || x < m - h {
        FarIsLarge(x, m, h);
      }
    }
  }

  /** Chebyshev: the values strictly outside the bands, times mult^2, are at most the period. */
  lemma BandsAreChebyshev(w: seq<real>, mult: real, root: real -> real)
    requires w != [] && mult > 0.0 && IsSqrt(root)
    ensures Times(Outside(w, Mean(w), HalfWidth(w, mult, root)) as real, Square(mult)) <= |w| as real
  {
    hide Times;
    hide Square;
    var m := Mean(w);
    var v := Variance(w, m);
    VarianceIsNonNegative(w, m);
    hide Mean;
    hide Variance;
    var sd := root(v);
    var h := Times(mult, sd);
    ProductNonNegative(mult, sd);
    var count := Outside(w, m, h);
    if v == 0.0 {
      NoneOutside(w, m, h);
      TimesIsZero(0.0, Square(mult));
    } else {
      OutsideScatter(w, m, h);
      SquareOfProduct(mult, sd);
      TimesAssociates(count as real, Square(mult), v);
      TimesCommutes(v, |w| as real);
      hide IsSqrt;
      CancelFactor(Times(count as real, Square(mult)), |w| as real, v);
    }
  }

  lemma CancelFactor(a: real, b: real, v: real)
    requires v > 0.0 && Times(a, v) <= Times(b, v)
    ensures a <= b
  {
    if a > b { TimesMonotone(b, a, v); }
    hide Times;
  }

  lemma {:induction false} NoneOutside(w: seq<real>, m: real, h: real)
    requires h >= 0.0 && Flat(Shifted(w, m))
    ensures Outside(w, m, h) == 0
  {
    if w != [] {
      var n := |w| - 1;
      assert Shifted(w, m)[n] == w[n] - m;
      assert Shifted(w[..n], m) == Shifted(w, m)[..n];
      NoneOutside(w[..n], m, h);
    }
  }

  /** The bands collapse onto the mid line exactly when the window is constant. */
  lemma BandsCollapseIff(w: seq<real>, mult: real, root: real -> real)
    requires w != [] && mult > 0.0 && IsSqrt(root)
    ensures HalfWidth(w, mult, root) >= 0.0
    ensures HalfWidth(w, mult, root) == 0.0 <==> Constant(w)
  {
    var v := Variance(w, Mean(w));
    VarianceIsNonNegative(w, Mean(w));
    FlatIsConstant(w);
    hide Times;
    hide Variance;
    SquareIsPositive(root(v));
    TimesIsZero(mult, root(v));
    ProductNonNegative(mult, root(v));
    hide Square;
    hide Mean;
    hide Constant;
    hide Flat;
  }

  /** What a chart may rely on at every full window: bands symmetric about the mid line, touching it exactly when
      the window is constant, and with few enough values strictly outside. */
  lemma BollingerBandsHold(values: seq<real>, period: int, mult: real, root: real -> real, i: nat)
    requires 0 < period <= i + 1 <= |values| && mult > 0.0 && IsSqrt(root)
    ensures BandAt(values, period, mult, root, i).Some? && BandAt(values, period, -mult, root, i).Some?
    ensures var w := Window(values, period, i);
            var m, upper := Mean(w), BandAt(values, period, mult, root, i).value;
            var lower := BandAt(values, period, -mult, root, i).value;
      && SmaAt(values, period, i) == Some(m)
      && lower <= m <= upper && upper - m == m - lower
      && (upper == lower <==> Constant(w))
      && Times(Outside(w, m, upper - m) as real, Square(mult)) <= period as real
  {
    var w := Window(values, period, i);
    BandsCollapseIff(w, mult, root);
    BandsAreChebyshev(w, mult, root);
    TimesNegated(mult, root(Variance(w, Mean(w))));
    hide Times;
    hide Square;
    hide Mean;
    hide Variance;
    hide Outside;
    hide IsSqrt;
    hide Constant;
    assert Mean(w) + HalfWidth(w, mult, root) - Mean(w) == HalfWidth(w, mult, root);
  }

  /** The bands themselves, for any multiplier: either side of the mean, at a distance whose square is the
      multiplier's square times the mean square deviation, the upper one above exactly as the multiplier's sign says. */
  lemma BandsAreExact(values: seq<real>, period: int, mult: real, root: real -> real, i: nat)
    requires 1 <= period <= i + 1 <= |values| && IsSqrt(root)
    ensures BandAt(values, period, mult, root, i).Some? && BandAt(values, period, -mult, root, i).Some?
    ensures var w := values[i + 1 - period..i + 1];
            var m, upper := Over(Sum(w), period as real), BandAt(values, period, mult, root, i).value;
            var lower := BandAt(values, period, -mult, root, i).value;
      && upper - m == m - lower
      && Times(Square(upper - m), period as real) == Times(Square(mult), Dot(Shifted(w, m), Shifted(w, m)))
      && (mult >= 0.0 ==> upper >= m) && (mult <= 0.0 ==> upper <= m)
  {
    assert i + 1 - period == i - period + 1;
    var w := Window(values, period, i);
    var v := Variance(w, Mean(w));
    VarianceIsNonNegative(w, Mean(w));
    SquareOfProduct(mult, root(v));
    TimesAssociates(Square(mult), v, period as real);
    TimesNegated(mult, root(v));
    if mult >= 0.0 { ProductNonNegative(mult, root(v)); } else { ProductNonNegative(-mult, root(v)); }
    hide Times;
    hide Square;
    hide Variance;
    hide Over;
    hide Sum;
    hide Dot;
    hide Shifted;
    assert Mean(w) + HalfWidth(w, mult, root) - Mean(w) == HalfWidth(w, mult, root);
  }
}
