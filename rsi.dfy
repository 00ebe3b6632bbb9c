/**
 * RSI (relative strength index): the first differences of the
 * forward-filled prices are split into gains and losses, their rolling
 * means give the relative strength `rs`, and `rsi = 100 - 100 / (1 + rs)`
 * is compared with an upper and a lower line.
 */
module Rsi {
  import opened Wrappers
  import opened Series

  /** The output columns, in order. */
  const Columns: seq<string> := ["value", "rs", "rsi", "signal"]

  /** The calculator's settings: the two lines and the rolling options. */
  datatype Calculator = Calculator(upperLine: int, lowerLine: int, rolling: RollingConfig)

  /**
   * A relative strength: a finite ratio, or the infinity a float division
   * gives when the average loss is 0 and the average gain is not. The zeros
   * of `downward` are `0 * -1`, a negative zero, so that infinity most
   * likely shows as `-inf`; with either sign `100 - 100 / (1 + rs)` is 100.
   */
  datatype Strength = Finite(ratio: real) | Unbounded

  /** One output row. */
  datatype Row = Row(value: Option<real>, rs: Option<Strength>, rsi: Option<real>, signal: int)

  /** What can go wrong in `calculate`. */
  datatype Error = BadRolling(cause: RollingError)  // pandas rejects the rolling options

  /** The constructor; `center` and `min_periods` are the extra rolling options. */
  function NewCalculator(
    windowSize: int := 14,
    upperLine: int := 70,
    lowerLine: int := 30,
    center: Option<bool> := None,
    minPeriods: Option<int> := None): (c: Calculator)
    ensures c.upperLine == upperLine && c.lowerLine == lowerLine
    ensures c.rolling.window == windowSize && c.rolling.center == center && c.rolling.minPeriods == minPeriods
  {
    Calculator(upperLine, lowerLine, RollingConfig(windowSize, center, minPeriods))
  }

  lemma DefaultCalculator()
    ensures NewCalculator() == Calculator(70, 30, RollingConfig(14, None, None))
  {
  }

  // ---------------------------------------------------------------------
  // Differences, gains and losses
  // ---------------------------------------------------------------------

  /** `Series.diff()`: each entry minus the one before; the first entry is missing. */
  function Diff(xs: Column): (r: Column)
    ensures |r| == |xs|
  {
    seq(|xs|, i requires 0 <= i < |xs| => if i == 0 then None else Sub(xs[i], xs[i - 1]))
  }

  /** The first difference is missing; a later one is present when both prices are, and is their difference. */
  lemma DiffAt(xs: Column, i: nat)
    requires i < |xs|
    ensures i == 0 ==> Diff(xs)[i].None?
    ensures i > 0 ==> (Diff(xs)[i].Some? <==> xs[i].Some? && xs[i - 1].Some?)
    ensures i > 0 && Diff(xs)[i].Some? ==> Diff(xs)[i].value == xs[i].value - xs[i - 1].value
  {
  }

  /** The differences of a constant column are 0. */
  lemma DiffConstant(xs: Column, p: real)
    requires forall k :: 0 <= k < |xs| ==> xs[k] == Some(p)
    ensures forall k :: 0 <= k < |xs| && Diff(xs)[k].Some? ==> Diff(xs)[k].value == 0.0
  {
    forall k | 0 <= k < |xs| && Diff(xs)[k].Some?
      ensures Diff(xs)[k].value == 0.0
    {
      DiffAt(xs, k);
    }
  }

  /** The differences of a strictly rising column are positive. */
  lemma DiffRising(xs: Column)
    requires Complete(xs)
    requires forall k :: 0 < k < |xs| ==> xs[k - 1].value < xs[k].value
    ensures forall k :: 0 <= k < |xs| && Diff(xs)[k].Some? ==> Diff(xs)[k].value > 0.0
  {
    forall k | 0 <= k < |xs| && Diff(xs)[k].Some?
      ensures Diff(xs)[k].value > 0.0
    {
      DiffAt(xs, k);
    }
  }

  /** The differences of a strictly falling column are negative. */
  lemma DiffFalling(xs: Column)
    requires Complete(xs)
    requires forall k :: 0 < k < |xs| ==> xs[k - 1].value > xs[k].value
    ensures forall k :: 0 <= k < |xs| && Diff(xs)[k].Some? ==> Diff(xs)[k].value < 0.0
  {
    forall k | 0 <= k < |xs| && Diff(xs)[k].Some?
      ensures Diff(xs)[k].value < 0.0
    {
      DiffAt(xs, k);
    }
  }

  /** `upward`: the difference where it is not negative, 0 where it is. */
  function Upward(d: Option<real>): (r: Option<real>)
    ensures r.Some? <==> d.Some?
    ensures r.Some? ==> r.value >= 0.0 && (d.value >= 0.0 ==> r.value == d.value)
  {
    if d.Some? && d.value < 0.0 then Some(0.0) else d
  }

  /** `downward`: 0 where the difference is positive, then everything negated. */
  function Downward(d: Option<real>): (r: Option<real>)
    ensures r.Some? <==> d.Some?
    ensures r.Some? ==> r.value >= 0.0 && (d.value <= 0.0 ==> r.value == -d.value)
  {
    var masked := if d.Some? && d.value > 0.0 then Some(0.0) else d;
    if masked.Some? then Some(-masked.value) else None
  }

  /**
   * Gain and loss are present exactly when the difference is; both are
   * non-negative, at most one of them is non-zero, and the gain minus the
   * loss is the difference.
   */
  lemma GainLossSplit(d: Option<real>)
    ensures Upward(d).Some? <==> d.Some?
    ensures Downward(d).Some? <==> d.Some?
    ensures d.Some? ==> Upward(d).value >= 0.0 && Downward(d).value >= 0.0
    ensures d.Some? ==> Upward(d).value - Downward(d).value == d.value
    ensures d.Some? ==> Upward(d).value == 0.0 || Downward(d).value == 0.0
  {
  }

  function Gains(diff: Column): (r: Column)
    ensures |r| == |diff|
    ensures forall k :: 0 <= k < |r| ==> (r[k].Some? <==> diff[k].Some?)
    ensures forall k :: 0 <= k < |r| && r[k].Some? ==> r[k].value >= 0.0
  {
    seq(|diff|, k requires 0 <= k < |diff| => Upward(diff[k]))
  }

  function Losses(diff: Column): (r: Column)
    ensures |r| == |diff|
    ensures forall k :: 0 <= k < |r| ==> (r[k].Some? <==> diff[k].Some?)
    ensures forall k :: 0 <= k < |r| && r[k].Some? ==> r[k].value >= 0.0
  {
    seq(|diff|, k requires 0 <= k < |diff| => Downward(diff[k]))
  }

  /** Where every difference is negative, every loss is positive and every gain 0. */
  lemma LossesOfFall(diff: Column)
    requires forall k :: 0 <= k < |diff| && diff[k].Some? ==> diff[k].value < 0.0
    ensures forall k :: 0 <= k < |diff| && Losses(diff)[k].Some? ==> Losses(diff)[k].value > 0.0
    ensures forall k :: 0 <= k < |diff| && Gains(diff)[k].Some? ==> Gains(diff)[k].value == 0.0
  {
    forall k | 0 <= k < |diff| && diff[k].Some?
      ensures Losses(diff)[k].value > 0.0 && Gains(diff)[k].value == 0.0
    {
      GainLossSplit(diff[k]);
    }
  }

  // ---------------------------------------------------------------------
  // Relative strength and RSI
  // ---------------------------------------------------------------------

  /**
   * `avg_gain / avg_loss` in floating point: a missing operand or `0 / 0`
   * gives NaN, a positive gain over a zero loss gives infinity. The averages
   * are means of non-negative numbers.
   */
  function RelativeStrength(gain: Option<real>, loss: Option<real>): (r: Option<Strength>)
    requires gain.Some? ==> gain.value >= 0.0
    requires loss.Some? ==> loss.value >= 0.0
    ensures r.Some? ==> gain.Some? && loss.Some?
    ensures r.Some? && r.value.Finite? ==> r.value.ratio >= 0.0
  {
    if gain.None? || loss.None? then None
    else if loss.value > 0.0 then Some(Finite(gain.value / loss.value))
    else if gain.value > 0.0 then Some(Unbounded)
    else None
  }

  /** `100 - 100 / (1 + rs)`, where `100 / inf` is 0. */
  function RsiOf(rs: Option<Strength>): (r: Option<real>)
    requires rs.Some? && rs.value.Finite? ==> rs.value.ratio >= 0.0
    ensures r.Some? <==> rs.Some?
  {
    match rs
    case None => None
    case Some(Unbounded) => Some(100.0)
    case Some(Finite(x)) => Some(100.0 - 100.0 / (1.0 + x))
  }

  /** Every RSI lies in [0, 100]. */
  lemma RsiRange(rs: Option<Strength>)
    requires rs.Some? && rs.value.Finite? ==> rs.value.ratio >= 0.0
    ensures RsiOf(rs).Some? ==> 0.0 <= RsiOf(rs).value <= 100.0
  {
    if rs.Some? && rs.value.Finite? {
      var x := rs.value.ratio;
      var q := 100.0 / (1.0 + x);
      assert q * (1.0 + x) == 100.0;
      assert q > 0.0;
      ProductNonNegative(q, x);
      assert q * (1.0 + x) == q + q * x;
    }
  }

  /** For a positive average loss: `100 - 100 / (1 + g / l) == 100 * g / (g + l)`. */
  lemma RsiIdentity(g: real, l: real)
    requires g >= 0.0 && l > 0.0
    ensures RsiOf(RelativeStrength(Some(g), Some(l))) == Some(100.0 * g / (g + l))
  {
    var x := g / l;
    assert x * l == g;
    assert (1.0 + x) * l == g + l;
    var lhs := 100.0 - 100.0 / (1.0 + x);
    var q := 100.0 / (1.0 + x);
    assert q * (1.0 + x) == 100.0;
    assert q * (g + l) == q * ((1.0 + x) * l);
    assert q * ((1.0 + x) * l) == 100.0 * l;
    assert lhs * (g + l) == 100.0 * (g + l) - 100.0 * l;
    assert lhs == (100.0 * g) / (g + l);
  }

  /** With no losses and some gain the RSI is 100. */
  lemma RsiNoLosses(g: real)
    requires g > 0.0
    ensures RelativeStrength(Some(g), Some(0.0)) == Some(Unbounded)
    ensures RsiOf(RelativeStrength(Some(g), Some(0.0))) == Some(100.0)
  {
  }

  /** With losses and no gain the RSI is 0. */
  lemma RsiNoGains(l: real)
    requires l > 0.0
    ensures RsiOf(RelativeStrength(Some(0.0), Some(l))) == Some(0.0)
  {
    RsiIdentity(0.0, l);
  }

  /** The threshold signal: above the upper line 1, else below the lower line -1, else 0. */
  function SignalOf(rsi: Option<real>, upperLine: int, lowerLine: int): (r: int)
    ensures -1 <= r <= 1
    ensures r != 0 ==> rsi.Some?
  {
    if rsi.Some? && rsi.value > upperLine as real then 1
    else if rsi.Some? && rsi.value < lowerLine as real then -1
    else 0
  }

  /** The signal classifies the RSI, the upper line taking precedence; NaN compares false. */
  lemma SignalClassification(rsi: Option<real>, upperLine: int, lowerLine: int)
    ensures SignalOf(rsi, upperLine, lowerLine) == 1 <==> rsi.Some? && rsi.value > upperLine as real
    ensures SignalOf(rsi, upperLine, lowerLine) == -1
      <==> rsi.Some? && rsi.value <= upperLine as real && rsi.value < lowerLine as real
    ensures SignalOf(rsi, upperLine, lowerLine) == 0
      <==> rsi.None? || lowerLine as real <= rsi.value <= upperLine as real
  {
  }

  // ---------------------------------------------------------------------
  // The calculation
  // ---------------------------------------------------------------------

  /** The rolling mean of the gains of the filled prices. */
  function AverageGain(c: Calculator, values: Column): (r: Column)
    requires c.rolling.window >= 0
    ensures |r| == |values|
    ensures forall k :: 0 <= k < |r| && r[k].Some? ==> r[k].value >= 0.0
  {
    var up := Gains(Diff(FFill(values)));
    RollingMeanNonNegative(up, c.rolling);
    RollingMean(up, c.rolling)
  }

  /** The rolling mean of the losses of the filled prices. */
  function AverageLoss(c: Calculator, values: Column): (r: Column)
    requires c.rolling.window >= 0
    ensures |r| == |values|
    ensures forall k :: 0 <= k < |r| && r[k].Some? ==> r[k].value >= 0.0
  {
    var down := Losses(Diff(FFill(values)));
    RollingMeanNonNegative(down, c.rolling);
    RollingMean(down, c.rolling)
  }

  /** `calculate` */
  function Calculate(c: Calculator, values: Column): (r: Result<seq<Row>, Error>)
    ensures r.Failure? <==> RollingCheck(c.rolling).Some?
    ensures r.Failure? ==> r.error == BadRolling(RollingCheck(c.rolling).value)
    ensures r.Success? ==> |r.value| == |values|
    ensures r.Success? ==> forall i :: 0 <= i < |values| ==> r.value[i].value == values[i]
  {
    match RollingCheck(c.rolling)
    case Some(e) => Failure(BadRolling(e))
    case None =>
      var gain := AverageGain(c, values);
      var loss := AverageLoss(c, values);
      Success(seq(|values|, i requires 0 <= i < |values| =>
        var rs := RelativeStrength(gain[i], loss[i]);
        var rsi := RsiOf(rs);
        Row(values[i], rs, rsi, SignalOf(rsi, c.upperLine, c.lowerLine))))
  }

  // ---------------------------------------------------------------------
  // Properties of the calculation
  // ---------------------------------------------------------------------

  /** A row in terms of the two averages at its position. */
  lemma CalculateRow(c: Calculator, values: Column, i: nat)
    requires Calculate(c, values).Success? && i < |values|
    ensures Calculate(c, values).value[i].rs
      == RelativeStrength(AverageGain(c, values)[i], AverageLoss(c, values)[i])
    ensures Calculate(c, values).value[i].rsi == RsiOf(Calculate(c, values).value[i].rs)
    ensures Calculate(c, values).value[i].signal
      == SignalOf(Calculate(c, values).value[i].rsi, c.upperLine, c.lowerLine)
  {
  }

  /**
   * The RSI is present exactly when both averages are and they are not both
   * 0; it is `100 * g / (g + l)` for a positive average loss l and 100 for a
   * zero one; it always lies in [0, 100].
   */
  lemma CalculateRsi(c: Calculator, values: Column, i: nat)
    requires Calculate(c, values).Success? && i < |values|
    ensures var g := AverageGain(c, values)[i];
      var l := AverageLoss(c, values)[i];
      var rsi := Calculate(c, values).value[i].rsi;
      (rsi.Some? <==> g.Some? && l.Some? && (g.value > 0.0 || l.value > 0.0))
      && (rsi.Some? ==> 0.0 <= rsi.value <= 100.0)
      && (g.Some? && l.Some? && l.value > 0.0 ==> rsi == Some(100.0 * g.value / (g.value + l.value)))
      && (g.Some? && l.Some? && l.value == 0.0 && g.value > 0.0 ==> rsi == Some(100.0))
  {
    CalculateRow(c, values, i);
    RsiOfAverages(AverageGain(c, values)[i], AverageLoss(c, values)[i]);
  }

  /** The RSI of two non-negative averages, as `CalculateRsi` states it for a row. */
  lemma RsiOfAverages(g: Option<real>, l: Option<real>)
    requires g.Some? ==> g.value >= 0.0
    requires l.Some? ==> l.value >= 0.0
    ensures var rsi := RsiOf(RelativeStrength(g, l));
      (rsi.Some? <==> g.Some? && l.Some? && (g.value > 0.0 || l.value > 0.0))
      && (rsi.Some? ==> 0.0 <= rsi.value <= 100.0)
      && (g.Some? && l.Some? && l.value > 0.0 ==> rsi == Some(100.0 * g.value / (g.value + l.value)))
      && (g.Some? && l.Some? && l.value == 0.0 && g.value > 0.0 ==> rsi == Some(100.0))
  {
    RsiRange(RelativeStrength(g, l));
    if g.Some? && l.Some? && l.value > 0.0 {
      RsiIdentity(g.value, l.value);
    }
  }

  /** The two averages are present at the same positions. */
  lemma AveragesPresentTogether(c: Calculator, values: Column, i: nat)
    requires c.rolling.window >= 0 && i < |values|
    ensures AverageGain(c, values)[i].Some? <==> AverageLoss(c, values)[i].Some?
  {
    var diff := Diff(FFill(values));
    RollingMeanSamePattern(Gains(diff), Losses(diff), c.rolling, i);
  }

  /**
   * On complete prices with a trailing window and the default
   * `min_periods`, both averages are present from row `window` on: the
   * window then holds `window` differences, none of them the missing first.
   */
  lemma AveragesAfterWarmUp(c: Calculator, values: Column, i: nat)
    requires Complete(values) && c.rolling.window >= 1
    requires c.rolling.center != Some(true) && c.rolling.minPeriods.None?
    requires c.rolling.window <= i < |values|
    ensures AverageGain(c, values)[i].Some? && AverageLoss(c, values)[i].Some?
  {
    CompleteFFill(values);
    var diff := Diff(values);
    var up := Gains(diff);
    forall k | i + 1 - c.rolling.window <= k <= i
      ensures up[k].Some?
    {
      DiffAt(values, k);
    }
    FullWindowPresent(up, c.rolling, x => x, i);
    AveragesPresentTogether(c, values, i);
  }

  /** A one-value input has no difference, so no `rs`, no RSI and signal 0. */
  lemma CalculateSingleValue(c: Calculator, v: Option<real>)
    requires Calculate(c, [v]).Success?
    ensures Calculate(c, [v]).value == [Row(v, None, None, 0)]
  {
    var up := Gains(Diff(FFill([v])));
    ObservedEmpty(Window(up, 0, c.rolling));
    var r := Calculate(c, [v]).value;
    assert r[0] == Row(v, None, None, 0);
  }

  /** With a trailing window the first row has no `rs` and no RSI. */
  lemma CalculateFirstRow(c: Calculator, values: Column)
    requires Calculate(c, values).Success? && values != [] && c.rolling.center != Some(true)
    ensures Calculate(c, values).value[0].rs.None? && Calculate(c, values).value[0].rsi.None?
    ensures Calculate(c, values).value[0].signal == 0
  {
    var up := Gains(Diff(FFill(values)));
    if c.rolling.window >= 1 {
      TrailingWindow(|values|, 0, c.rolling);
      assert Window(up, 0, c.rolling) == [up[0]];
    }
    ObservedEmpty(Window(up, 0, c.rolling));
    CalculateRow(c, values, 0);
  }

  /** Constant prices have neither gains nor losses: the RSI is missing everywhere. */
  lemma CalculateConstant(c: Calculator, values: Column, p: real, i: nat)
    requires Calculate(c, values).Success? && i < |values|
    requires forall k :: 0 <= k < |values| ==> values[k] == Some(p)
    ensures Calculate(c, values).value[i].rsi.None?
    ensures Calculate(c, values).value[i].signal == 0
  {
    assert c.rolling.window >= 0;
    ConstantAverages(c, values, p, i);
    CalculateRow(c, values, i);
  }

  /** On constant prices both averages are 0 wherever present. */
  lemma ConstantAverages(c: Calculator, values: Column, p: real, i: nat)
    requires c.rolling.window >= 0 && i < |values|
    requires forall k :: 0 <= k < |values| ==> values[k] == Some(p)
    ensures AverageGain(c, values)[i].Some? ==> AverageGain(c, values)[i].value == 0.0
    ensures AverageLoss(c, values)[i].Some? ==> AverageLoss(c, values)[i].value == 0.0
  {
    var diff := Diff(FFill(values));
    CompleteFFill(values);
    DiffConstant(values, p);
    if AverageGain(c, values)[i].Some? {
      RollingMeanConstant(Gains(diff), c.rolling, i, 0.0);
    }
    if AverageLoss(c, values)[i].Some? {
      RollingMeanConstant(Losses(diff), c.rolling, i, 0.0);
    }
  }

  /** Strictly rising prices have no losses: every RSI present is 100. */
  lemma CalculateRising(c: Calculator, values: Column, i: nat)
    requires Calculate(c, values).Success? && i < |values|
    requires Complete(values)
    requires forall k :: 0 < k < |values| ==> values[k - 1].value < values[k].value
    ensures Calculate(c, values).value[i].rsi.Some? ==> Calculate(c, values).value[i].rsi == Some(100.0)
    ensures (c.rolling.window >= 1 && c.rolling.center != Some(true) && c.rolling.minPeriods.None?
             && i >= c.rolling.window) ==> Calculate(c, values).value[i].rsi == Some(100.0)
  {
    assert c.rolling.window >= 0;
    var g := AverageGain(c, values)[i];
    var l := AverageLoss(c, values)[i];
    if c.rolling.window >= 1 && c.rolling.center != Some(true) && c.rolling.minPeriods.None? && i >= c.rolling.window {
      AveragesAfterWarmUp(c, values, i);
    }
    RisingAverages(c, values, i);
    CalculateRow(c, values, i);
    if g.Some? && l.Some? {
      RsiNoLosses(g.value);
    }
  }

  /** On strictly rising prices the average gain is positive and the average loss 0, wherever present. */
  lemma RisingAverages(c: Calculator, values: Column, i: nat)
    requires c.rolling.window >= 0 && i < |values|
    requires Complete(values)
    requires forall k :: 0 < k < |values| ==> values[k - 1].value < values[k].value
    ensures AverageGain(c, values)[i].Some? ==> AverageGain(c, values)[i].value > 0.0
    ensures AverageLoss(c, values)[i].Some? ==> AverageLoss(c, values)[i].value == 0.0
  {
    var diff := Diff(FFill(values));
    CompleteFFill(values);
    DiffRising(values);
    if AverageGain(c, values)[i].Some? {
      RollingMeanPositive(Gains(diff), c.rolling, i);
    }
    if AverageLoss(c, values)[i].Some? {
      RollingMeanConstant(Losses(diff), c.rolling, i, 0.0);
    }
  }

  /** Strictly falling prices have no gains: every RSI present is 0. */
  lemma CalculateFalling(c: Calculator, values: Column, i: nat)
    requires Calculate(c, values).Success? && i < |values|
    requires Complete(values)
    requires forall k :: 0 < k < |values| ==> values[k - 1].value > values[k].value
    ensures Calculate(c, values).value[i].rsi.Some? ==> Calculate(c, values).value[i].rsi == Some(0.0)
    ensures (c.rolling.window >= 1 && c.rolling.center != Some(true) && c.rolling.minPeriods.None?
             && i >= c.rolling.window) ==> Calculate(c, values).value[i].rsi == Some(0.0)
  {
    assert c.rolling.window >= 0;
    var g := AverageGain(c, values)[i];
    var l := AverageLoss(c, values)[i];
    if c.rolling.window >= 1 && c.rolling.center != Some(true) && c.rolling.minPeriods.None? && i >= c.rolling.window {
      AveragesAfterWarmUp(c, values, i);
    }
    FallingAverages(c, values, i);
    CalculateRow(c, values, i);
    if g.Some? && l.Some? {
      RsiNoGains(l.value);
    }
  }

  /** On strictly falling prices the average gain is 0 and the average loss positive, wherever present. */
  lemma FallingAverages(c: Calculator, values: Column, i: nat)
    requires c.rolling.window >= 0 && i < |values|
    requires Complete(values)
    requires forall k :: 0 < k < |values| ==> values[k - 1].value > values[k].value
    ensures AverageGain(c, values)[i].Some? ==> AverageGain(c, values)[i].value == 0.0
    ensures AverageLoss(c, values)[i].Some? ==> AverageLoss(c, values)[i].value > 0.0
  {
    var diff := Diff(FFill(values));
    CompleteFFill(values);
    DiffFalling(values);
    LossesOfFall(diff);
    if AverageGain(c, values)[i].Some? {
      RollingMeanConstant(Gains(diff), c.rolling, i, 0.0);
    }
    if AverageLoss(c, values)[i].Some? {
      RollingMeanPositive(Losses(diff), c.rolling, i);
    }
  }

  /** Prices 100, 102, 101, 103 with window 3: gains 2, 0, 2 and losses 0, 1, 0 give `rs[3] = 4`. */
  lemma RelativeStrengthExample()
    ensures var values := [Some(100.0), Some(102.0), Some(101.0), Some(103.0)];
      Calculate(NewCalculator(3), values).Success?
      && Calculate(NewCalculator(3), values).value[3].rs == Some(Finite(4.0))
  {
    var values := [Some(100.0), Some(102.0), Some(101.0), Some(103.0)];
    var c := NewCalculator(3);
    ExampleGainsAndLosses();
    ExampleAverage([None, Some(2.0), Some(0.0), Some(2.0)], 2.0, 0.0, 2.0);
    ExampleAverage([None, Some(0.0), Some(1.0), Some(0.0)], 0.0, 1.0, 0.0);
    assert AverageGain(c, values)[3] == Some(4.0 / 3.0);
    assert AverageLoss(c, values)[3] == Some(1.0 / 3.0);
    CalculateRow(c, values, 3);
  }

  lemma ExampleGainsAndLosses()
    ensures var diff := Diff(FFill([Some(100.0), Some(102.0), Some(101.0), Some(103.0)]));
      Gains(diff) == [None, Some(2.0), Some(0.0), Some(2.0)]
      && Losses(diff) == [None, Some(0.0), Some(1.0), Some(0.0)]
  {
    var values := [Some(100.0), Some(102.0), Some(101.0), Some(103.0)];
    CompleteFFill(values);
    assert Diff(values) == [None, Some(2.0), Some(-1.0), Some(2.0)];
  }

  /** The window-3 mean at position 3 of a column starting with a missing entry. */
  lemma ExampleAverage(s: Column, a: real, b: real, d: real)
    requires s == [None, Some(a), Some(b), Some(d)]
    ensures RollingMean(s, NewCalculator(3).rolling)[3] == Some((a + b + d) / 3.0)
  {
    var cfg := NewCalculator(3).rolling;
    TrailingWindow(4, 3, cfg);
    assert Window(s, 3, cfg) == s[1..4];
    assert s[1..4] == [Some(a), Some(b), Some(d)];
    MeanOfThree(a, b, d);
    RollingMeanAt(s, cfg, 3);
  }
}
