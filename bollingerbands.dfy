/**
 * Bollinger Bands: a rolling mean of the forward-filled prices, bands a
 * whole number of rolling standard deviations above and below it, and a
 * signal that says how many deviations the price lies from the mean.
 */
module BollingerBands {
  import opened Wrappers
  import opened Series

  /** Below this distance a residual counts as a whole number of deviations. */
  const FloatTolerance: real := 0.0000000001

  /** The output columns, in order. */
  const Columns: seq<string> := ["value", "ma", "sd", "lower_bb", "upper_bb", "signal"]

  /** The calculator's settings: the band multiplier and the rolling options. */
  datatype Calculator = Calculator(sdMultiplier: int, rolling: RollingConfig)

  /** One output row. */
  datatype Row = Row(
    value: Option<real>,
    ma: Option<real>,
    sd: Option<real>,
    lowerBb: Option<real>,
    upperBb: Option<real>,
    signal: int)

  /** What can go wrong in `calculate`. */
  datatype Error =
    | BadRolling(cause: RollingError)  // pandas rejects the rolling options
    | InfiniteResidual                 // `round` of an infinite residual raises `OverflowError`

  /** The constructor; `center` and `min_periods` are the extra rolling options. */
  function NewCalculator(
    windowSize: int := 20,
    sdMultiplier: int := 2,
    center: Option<bool> := None,
    minPeriods: Option<int> := None): (c: Calculator)
    ensures c.sdMultiplier == sdMultiplier
    ensures c.rolling.window == windowSize && c.rolling.center == center && c.rolling.minPeriods == minPeriods
  {
    Calculator(sdMultiplier, RollingConfig(windowSize, center, minPeriods))
  }

  lemma DefaultCalculator()
    ensures NewCalculator() == Calculator(2, RollingConfig(20, None, None))
  {
  }

  // ---------------------------------------------------------------------
  // Rounding
  // ---------------------------------------------------------------------

  function Abs(x: real): (r: real)
    ensures r >= 0.0 && (r == x || r == -x)
  {
    if x < 0.0 then -x else x
  }

  /** `np.ceil` */
  function Ceil(x: real): (r: int)
    ensures r as real - 1.0 < x <= r as real
  {
    -((-x).Floor)
  }

  /** Python's `round`: to the nearest integer, halves to the even one. */
  function RoundHalfEven(x: real): (r: int)
    ensures x - 0.5 <= r as real <= x + 0.5
  {
    var f := x.Floor;
    if x - f as real < 0.5 then f
    else if x - f as real > 0.5 then f + 1
    else if f % 2 == 0 then f
    else f + 1
  }

  /** The rounded value is an integer nearest to x, and the even one on a tie. */
  lemma RoundHalfEvenNearest(x: real, n: int)
    ensures Abs(x - RoundHalfEven(x) as real) <= 0.5
    ensures Abs(x - RoundHalfEven(x) as real) <= Abs(x - n as real)
    ensures Abs(x - RoundHalfEven(x) as real) == 0.5 ==> RoundHalfEven(x) % 2 == 0
  {
    var f := x.Floor;
    var d := x - f as real;
    assert 0.0 <= d < 1.0;
    if n <= f {
      assert Abs(x - n as real) >= d;
    } else {
      assert Abs(x - n as real) >= 1.0 - d;
    }
  }

  /** An integer closer than one half is the rounded value. */
  lemma RoundHalfEvenUnique(x: real, n: int)
    requires Abs(x - n as real) < 0.5
    ensures RoundHalfEven(x) == n
  {
  }

  /**
   * The signal for a finite residual: the residual rounded when it lies
   * within the tolerance of a whole number, else truncated toward zero.
   */
  function Signal(x: real): (r: int)
    ensures x >= 0.0 ==> r >= 0
    ensures x <= 0.0 ==> r <= 0
  {
    if Abs(x - RoundHalfEven(x) as real) > FloatTolerance then
      (if x > 0.0 then x.Floor else Ceil(x))
    else
      RoundHalfEven(x)
  }

  /** A residual within the tolerance of a whole number n gives signal n. */
  lemma SignalNearWhole(x: real, n: int)
    requires Abs(x - n as real) <= FloatTolerance
    ensures Signal(x) == n
  {
    RoundHalfEvenUnique(x, n);
  }

  /**
   * A residual away from both neighbouring whole numbers is truncated
   * toward zero: the signal counts the whole deviations, keeping the sign.
   */
  lemma SignalTruncates(x: real)
    requires Abs(x - x.Floor as real) > FloatTolerance
    requires Abs(x - (x.Floor + 1) as real) > FloatTolerance
    ensures x > 0.0 ==> Signal(x) as real <= x < Signal(x) as real + 1.0
    ensures x <= 0.0 ==> Signal(x) as real - 1.0 < x <= Signal(x) as real
    ensures Abs(Signal(x) as real) <= Abs(x)
  {
  }

  /** Whatever the residual, the signal is less than one away from it. */
  lemma SignalWithinOne(x: real)
    ensures Abs(x - Signal(x) as real) < 1.0
  {
    RoundHalfEvenNearest(x, 0);
  }

  // ---------------------------------------------------------------------
  // Columns
  // ---------------------------------------------------------------------

  /** `ma - sd * sd_multiplier` */
  function Lower(ma: Option<real>, sd: Option<real>, k: int): (r: Option<real>)
    ensures r.Some? <==> ma.Some? && sd.Some?
    ensures r.Some? ==> r.value + sd.value * k as real == ma.value
  {
    if ma.Some? && sd.Some? then Some(ma.value - sd.value * k as real) else None
  }

  /** `ma + sd * sd_multiplier` */
  function Upper(ma: Option<real>, sd: Option<real>, k: int): (r: Option<real>)
    ensures r.Some? <==> ma.Some? && sd.Some?
    ensures r.Some? ==> r.value - sd.value * k as real == ma.value
  {
    if ma.Some? && sd.Some? then Some(ma.value + sd.value * k as real) else None
  }

  /** `(value_ff - ma) / sd` in floating point: NaN, a finite number or an infinity. */
  datatype Residual = Undefined | Finite(x: real) | Infinite

  function ResidualOf(v: Option<real>, ma: Option<real>, sd: Option<real>): (r: Residual)
    ensures r.Finite? <==> v.Some? && ma.Some? && sd.Some? && sd.value != 0.0
    ensures r.Finite? ==> ma.value + r.x * sd.value == v.value
    ensures r.Infinite? <==> v.Some? && ma.Some? && sd == Some(0.0) && v.value != ma.value
  {
    if v.None? || ma.None? || sd.None? then Undefined
    else if sd.value != 0.0 then Finite((v.value - ma.value) / sd.value)
    else if v.value == ma.value then Undefined  // 0 / 0
    else Infinite
  }

  /** `0 if pd.isna(x) else ...` */
  function SignalOf(r: Residual): (s: int)
    requires !r.Infinite?
    ensures r.Undefined? ==> s == 0
    ensures r.Finite? ==> Abs(r.x - s as real) < 1.0
  {
    if r.Undefined? then 0
    else
      SignalWithinOne(r.x);
      Signal(r.x)
  }

  /** `calculate`: one row per input value. */
  function Calculate(c: Calculator, values: Column, root: real -> real): (r: Result<seq<Row>, Error>)
    ensures RollingCheck(c.rolling).Some? ==> r == Failure(BadRolling(RollingCheck(c.rolling).value))
    ensures r.Success? ==> |r.value| == |values|
    ensures r.Success? ==> forall i :: 0 <= i < |values| ==> r.value[i].value == values[i]
  {
    match RollingCheck(c.rolling)
    case Some(e) => Failure(BadRolling(e))
    case None =>
      var ff := FFill(values);
      var ma := RollingMean(ff, c.rolling);
      var sd := RollingStd(ff, c.rolling, root);
      var res := seq(|values|, i requires 0 <= i < |values| => ResidualOf(ff[i], ma[i], sd[i]));
      if exists i :: 0 <= i < |res| && res[i].Infinite? then
        Failure(InfiniteResidual)
      else
        Success(seq(|values|, i requires 0 <= i < |values| =>
          Row(values[i], ma[i], sd[i],
              Lower(ma[i], sd[i], c.sdMultiplier),
              Upper(ma[i], sd[i], c.sdMultiplier),
              SignalOf(res[i]))))
  }

  // ---------------------------------------------------------------------
  // Properties
  // ---------------------------------------------------------------------

  /** Where the standard deviation is zero, the filled price is the mean. */
  lemma FlatWindowAtMean(s: Column, cfg: RollingConfig, root: real -> real, i: nat)
    requires cfg.window >= 0 && i < |s| && IsSquareRoot(root)
    requires RollingStd(s, cfg, root)[i] == Some(0.0) && s[i].Some?
    ensures RollingMean(s, cfg)[i] == Some(s[i].value)
  {
    var w := Window(s, i, cfg);
    var start := WindowStart(|s|, i, cfg);
    RollingStdAt(s, cfg, root, i);
    RollingStdZero(s, cfg, root, i);
    WindowHoldsPosition(|s|, i, cfg);
    assert w[i - start] == s[i];
    ObservedContains(w, i - start);
    assert s[i].value == RollingMean(s, cfg)[i].value;
  }

  /**
   * No residual is ever infinite, so `calculate` fails exactly when pandas
   * rejects the rolling options.
   */
  lemma CalculateFailsOnlyOnBadOptions(c: Calculator, values: Column, root: real -> real)
    requires IsSquareRoot(root)
    ensures Calculate(c, values, root).Failure? <==> RollingCheck(c.rolling).Some?
  {
    if RollingCheck(c.rolling).None? {
      var ff := FFill(values);
      var ma := RollingMean(ff, c.rolling);
      var sd := RollingStd(ff, c.rolling, root);
      forall i | 0 <= i < |values|
        ensures !ResidualOf(ff[i], ma[i], sd[i]).Infinite?
      {
        if ff[i].Some? && sd[i] == Some(0.0) {
          FlatWindowAtMean(ff, c.rolling, root, i);
        }
      }
    }
  }

  /**
   * The columns of a successful calculation: `ma` and `sd` are the rolling
   * mean and standard deviation of the forward-filled prices, the bands sit
   * `sd_multiplier` deviations either side, and the signal comes from the
   * residual.
   */
  lemma CalculateColumns(c: Calculator, values: Column, root: real -> real, i: nat)
    requires Calculate(c, values, root).Success? && i < |values|
    ensures var row := Calculate(c, values, root).value[i];
      var ff := FFill(values);
      row.ma == RollingMean(ff, c.rolling)[i]
      && row.sd == RollingStd(ff, c.rolling, root)[i]
      && row.lowerBb == Lower(row.ma, row.sd, c.sdMultiplier)
      && row.upperBb == Upper(row.ma, row.sd, c.sdMultiplier)
      && !ResidualOf(ff[i], row.ma, row.sd).Infinite?
      && row.signal == SignalOf(ResidualOf(ff[i], row.ma, row.sd))
  {
  }

  /**
   * With a non-negative multiplier the bands enclose the mean, they are
   * `2 * sd_multiplier * sd` apart, and they are present exactly when the
   * standard deviation is.
   */
  lemma {:induction false} BandsEncloseMean(c: Calculator, values: Column, root: real -> real, i: nat)
    requires IsSquareRoot(root) && c.sdMultiplier >= 0
    requires Calculate(c, values, root).Success? && i < |values|
    ensures var row := Calculate(c, values, root).value[i];
      (row.lowerBb.Some? <==> row.sd.Some?)
      && (row.upperBb.Some? <==> row.sd.Some?)
      && (row.sd.Some? ==>
            row.ma.Some?
            && row.lowerBb.value <= row.ma.value <= row.upperBb.value
            && row.upperBb.value - row.lowerBb.value == BandWidth(c.sdMultiplier, row.sd.value))
  {
    var ff := FFill(values);
    var row := Calculate(c, values, root).value[i];
    CalculateColumns(c, values, root, i);
    RollingStdWithMean(ff, c.rolling, root, i);
    BandsOf(row.ma, row.sd, c.sdMultiplier);
  }

  lemma BandsOf(ma: Option<real>, sd: Option<real>, k: int)
    requires k >= 0 && (sd.Some? ==> ma.Some? && sd.value >= 0.0)
    ensures Lower(ma, sd, k).Some? <==> sd.Some?
    ensures Upper(ma, sd, k).Some? <==> sd.Some?
    ensures sd.Some? ==>
      Lower(ma, sd, k).value <= ma.value <= Upper(ma, sd, k).value
      && Upper(ma, sd, k).value - Lower(ma, sd, k).value == BandWidth(k, sd.value)
  {
    if sd.Some? {
      BandsAround(ma.value, sd.value, k);
    }
  }

  /** The distance between the bands: twice the multiplier times the deviation. */
  function BandWidth(k: int, sd: real): real {
    2.0 * k as real * sd
  }

  lemma BandsAround(ma: real, sd: real, k: int)
    requires sd >= 0.0 && k >= 0
    ensures var lo := Lower(Some(ma), Some(sd), k).value;
      var hi := Upper(Some(ma), Some(sd), k).value;
      lo <= ma <= hi && hi - lo == BandWidth(k, sd)
  {
    ProductNonNegative(sd, k as real);
  }

  /** A larger multiplier gives strictly wider bands wherever the deviation is positive. */
  lemma WiderWithLargerMultiplier(ma: real, sd: real, k1: int, k2: int)
    requires sd > 0.0 && k1 < k2
    ensures var w1 := Upper(Some(ma), Some(sd), k1).value - Lower(Some(ma), Some(sd), k1).value;
      var w2 := Upper(Some(ma), Some(sd), k2).value - Lower(Some(ma), Some(sd), k2).value;
      w1 < w2
  {
    ProductPositive(sd, (k2 - k1) as real);
  }

  /**
   * Two calculations that differ only in the multiplier share the mean and
   * the deviation, and where the deviation is positive the larger
   * multiplier gives strictly wider bands.
   */
  lemma WiderAcrossCalculations(c1: Calculator, c2: Calculator, values: Column, root: real -> real, i: nat)
    requires c1.rolling == c2.rolling && c1.sdMultiplier < c2.sdMultiplier
    requires Calculate(c1, values, root).Success? && Calculate(c2, values, root).Success? && i < |values|
    requires Calculate(c1, values, root).value[i].sd.Some? && Calculate(c1, values, root).value[i].sd.value > 0.0
    ensures var r1 := Calculate(c1, values, root).value[i];
      var r2 := Calculate(c2, values, root).value[i];
      r2.ma == r1.ma && r2.sd == r1.sd && r1.ma.Some?
      && r1.upperBb.value - r1.lowerBb.value < r2.upperBb.value - r2.lowerBb.value
  {
    var r1 := Calculate(c1, values, root).value[i];
    CalculateColumns(c1, values, root, i);
    CalculateColumns(c2, values, root, i);
    RollingStdAt(FFill(values), c1.rolling, root, i);
    RollingMeanAt(FFill(values), c1.rolling, i);
    WiderWithLargerMultiplier(r1.ma.value, r1.sd.value, c1.sdMultiplier, c2.sdMultiplier);
  }

  /** A zero deviation collapses both bands onto the mean and gives signal 0. */
  lemma {:induction false} ZeroDeviationCollapses(c: Calculator, values: Column, root: real -> real, i: nat)
    requires IsSquareRoot(root)
    requires Calculate(c, values, root).Success? && i < |values|
    requires Calculate(c, values, root).value[i].sd == Some(0.0)
    ensures var row := Calculate(c, values, root).value[i];
      row.ma.Some? && row.lowerBb == row.ma && row.upperBb == row.ma && row.signal == 0
  {
    var ff := FFill(values);
    CalculateColumns(c, values, root, i);
    RollingStdWithMean(ff, c.rolling, root, i);
    if ff[i].Some? {
      FlatWindowAtMean(ff, c.rolling, root, i);
    }
  }

  /**
   * Constant prices: every signal is 0 and, where present, the deviation is
   * 0 and the bands are the price. With a trailing window of at least two
   * and the default `min_periods`, the deviation is present from row
   * `window - 1` on.
   */
  lemma {:induction false} ConstantPrices(c: Calculator, values: Column, root: real -> real, x: real, i: nat)
    requires IsSquareRoot(root)
    requires forall k :: 0 <= k < |values| ==> values[k] == Some(x)
    requires Calculate(c, values, root).Success? && i < |values|
    ensures var row := Calculate(c, values, root).value[i];
      row.signal == 0
      && (row.sd.Some? ==> row.sd == Some(0.0) && row.ma == Some(x) && row.lowerBb == Some(x) && row.upperBb == Some(x))
    ensures (c.rolling.window >= 2 && c.rolling.center != Some(true) && c.rolling.minPeriods.None?
             && i + 1 >= c.rolling.window) ==> Calculate(c, values, root).value[i].sd == Some(0.0)
  {
    CompleteFFill(values);
    CalculateColumns(c, values, root, i);
    var row := Calculate(c, values, root).value[i];
    if c.rolling.window >= 2 && c.rolling.center != Some(true) && c.rolling.minPeriods.None?
      && i + 1 >= c.rolling.window {
      FullWindowPresent(values, c.rolling, root, i);
    }
    if row.sd.Some? {
      var w := Window(values, i, c.rolling);
      assert forall k :: 0 <= k < |w| ==> w[k] == Some(x);
      RollingStdConstant(values, c.rolling, root, i, x);
      ZeroDeviationCollapses(c, values, root, i);
    }
  }

  /**
   * Warm-up: on a complete price list with a trailing window and the default
   * `min_periods`, the first `window - 1` rows have no mean, no deviation,
   * no bands and signal 0.
   */
  lemma WarmUpRows(c: Calculator, values: Column, root: real -> real, i: nat)
    requires Complete(values) && c.rolling.window >= 1
    requires c.rolling.center != Some(true) && c.rolling.minPeriods.None?
    requires Calculate(c, values, root).Success? && i < |values| && i + 1 < c.rolling.window
    ensures var row := Calculate(c, values, root).value[i];
      row.ma.None? && row.sd.None? && row.lowerBb.None? && row.upperBb.None? && row.signal == 0
  {
    CompleteFFill(values);
    RollingMeanWarmUp(values, c.rolling.window, c.rolling.center, i);
    RollingStdAt(values, c.rolling, root, i);
    TrailingWindow(|values|, i, c.rolling);
  }

  /** A single price under the defaults: the price itself, nothing else, signal 0. */
  lemma SingleValue(x: real, root: real -> real)
    ensures Calculate(NewCalculator(), [Some(x)], root) == Success([Row(Some(x), None, None, None, None, 0)])
  {
    var c := NewCalculator();
    var s := [Some(x)];
    assert Window(s, 0, c.rolling) == s;
    assert Observed(s) == [x] by {
      assert s[1..] == [];
    }
    assert FFill(s) == s;
    assert RollingMean(s, c.rolling) == [None];
    assert RollingStd(s, c.rolling, root) == [None];
    var r := Calculate(c, s, root);
    assert r.Success?;
    assert r.value[0] == Row(Some(x), None, None, None, None, 0);
    assert r.value == [Row(Some(x), None, None, None, None, 0)];
  }

  /** The moving average of the window-3 example `[10, 20, 30, 40, 50]`: two gaps, then 20 and 30. */
  lemma MovingAverageExample()
    ensures var ma := RollingMean([Some(10.0), Some(20.0), Some(30.0), Some(40.0), Some(50.0)], NewCalculator(3).rolling);
      ma[0].None? && ma[1].None? && ma[2] == Some(20.0) && ma[3] == Some(30.0)
  {
    var s := [Some(10.0), Some(20.0), Some(30.0), Some(40.0), Some(50.0)];
    RollingMeanWarmUp(s, 3, None, 0);
    RollingMeanWarmUp(s, 3, None, 1);
    RollingMeanWarmUp(s, 3, None, 2);
    RollingMeanWarmUp(s, 3, None, 3);
    assert s[0..3] == [Some(10.0), Some(20.0), Some(30.0)];
    assert s[1..4] == [Some(20.0), Some(30.0), Some(40.0)];
    MeanOfThree(10.0, 20.0, 30.0);
    MeanOfThree(20.0, 30.0, 40.0);
  }

  /** The residuals of the large-movement example: 1.15 gives 1, -0.87 gives 0. */
  lemma SignalExamples()
    ensures Signal(1.15) == 1 && Signal(-0.87) == 0 && Signal(2.0) == 2 && Signal(-1.00000000001) == -1
  {
  }
}
