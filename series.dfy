/**
 * The pandas column operations the three calculators share: forward fill,
 * fixed-size rolling windows (pandas `Series.rolling(window, center,
 * min_periods)`), and the window statistics they take (mean and sample
 * variance with one degree of freedom).
 *
 * A pandas float column is a sequence of `Option<real>`: `None` is NaN.
 * Values are exact rationals, so rounding error is not part of the model.
 */
module Series {
  import opened Wrappers

  type Column = seq<Option<real>>

  /** True when every entry is present. */
  predicate Complete(s: Column) {
    forall i :: 0 <= i < |s| ==> s[i].Some?
  }

  /** Once an entry is present, every later entry is present too. */
  ghost predicate GapFree(s: Column) {
    forall i, j :: 0 <= i <= j < |s| && s[i].Some? ==> s[j].Some?
  }

  /** Element-wise difference of two columns; NaN on either side gives NaN. */
  function Sub(a: Option<real>, b: Option<real>): (r: Option<real>)
    ensures r.Some? <==> a.Some? && b.Some?
    ensures r.Some? ==> r.value + b.value == a.value
  {
    if a.Some? && b.Some? then Some(a.value - b.value) else None
  }

  // ---------------------------------------------------------------------
  // Forward fill (`Series.ffill()`)
  // ---------------------------------------------------------------------

  /** The most recent observation at or before position `i`. */
  function LastObserved(xs: Column, i: nat): Option<real>
    requires i < |xs|
  {
    if xs[i].Some? || i == 0 then xs[i] else LastObserved(xs, i - 1)
  }

  /** Forward fill: each missing entry takes the most recent earlier observation. */
  function FFill(xs: Column): (r: Column)
    ensures |r| == |xs|
  {
    seq(|xs|, i requires 0 <= i < |xs| => LastObserved(xs, i))
  }

  /** A filled entry is missing exactly when nothing up to it was observed. */
  lemma {:induction false} FFillMissingIff(xs: Column, i: nat)
    requires i < |xs|
    ensures FFill(xs)[i].None? <==> forall j :: 0 <= j <= i ==> xs[j].None?
  {
    if xs[i].None? && i > 0 {
      FFillMissingIff(xs, i - 1);
    }
  }

  /** A filled entry is the last observation at or before it. */
  lemma {:induction false} FFillIsLastObservation(xs: Column, j: nat, i: nat)
    requires j <= i < |xs| && xs[j].Some?
    requires forall k :: j < k <= i ==> xs[k].None?
    ensures FFill(xs)[i] == xs[j]
  {
    if j < i {
      FFillIsLastObservation(xs, j, i - 1);
    }
  }

  /** After filling, no entry is missing once one is present. */
  lemma {:induction false} FFillGapFree(xs: Column)
    ensures GapFree(FFill(xs))
  {
    var ff := FFill(xs);
    forall i, j | 0 <= i <= j < |ff| && ff[i].Some?
      ensures ff[j].Some?
    {
      FilledStaysFilled(xs, i, j);
    }
  }

  lemma {:induction false} FilledStaysFilled(xs: Column, i: nat, j: nat)
    requires i <= j < |xs| && LastObserved(xs, i).Some?
    ensures LastObserved(xs, j).Some?
  {
    if i < j {
      FilledStaysFilled(xs, i, j - 1);
    }
  }

  /** Filling twice changes nothing. */
  lemma {:induction false} FFillIdempotent(xs: Column)
    ensures FFill(FFill(xs)) == FFill(xs)
  {
    var ff := FFill(xs);
    forall i | 0 <= i < |ff|
      ensures LastObserved(ff, i) == ff[i]
    {
      RefillAt(xs, i);
    }
  }

  lemma {:induction false} RefillAt(xs: Column, i: nat)
    requires i < |xs|
    ensures LastObserved(FFill(xs), i) == FFill(xs)[i]
  {
    if FFill(xs)[i].None? && i > 0 {
      RefillAt(xs, i - 1);
    }
  }

  /** The fill is complete exactly when the first entry is present (or there is none). */
  lemma FFillCompleteIff(xs: Column)
    ensures Complete(FFill(xs)) <==> (xs == [] || xs[0].Some?)
  {
    if xs != [] && xs[0].Some? {
      forall i | 0 <= i < |xs|
        ensures FFill(xs)[i].Some?
      {
        FFillMissingIff(xs, i);
      }
    }
    if xs != [] {
      assert FFill(xs)[0] == xs[0];
    }
  }

  /** A complete column is its own fill. */
  lemma CompleteFFill(xs: Column)
    requires Complete(xs)
    ensures FFill(xs) == xs
  {
  }

  // ---------------------------------------------------------------------
  // Sums, mean and sample variance
  // ---------------------------------------------------------------------

  function Sum(xs: seq<real>): real {
    if xs == [] then 0.0 else xs[0] + Sum(xs[1..])
  }

  function Mean(xs: seq<real>): real
    requires |xs| > 0
  {
    Sum(xs) / |xs| as real
  }

  /** `x ** n` for a natural exponent. */
  function Power(x: real, n: nat): real {
    if n == 0 then 1.0 else x * Power(x, n - 1)
  }

  /** `x ** 2` */
  function Square(x: real): real {
    Power(x, 2)
  }

  function SumSquaredDeviations(xs: seq<real>, m: real): real {
    if xs == [] then 0.0 else Square(xs[0] - m) + SumSquaredDeviations(xs[1..], m)
  }

  /** Sample variance with one degree of freedom (pandas `ddof=1`). */
  function SampleVariance(xs: seq<real>): real
    requires |xs| > 1
  {
    SumSquaredDeviations(xs, Mean(xs)) / (|xs| - 1) as real
  }

  lemma {:induction false} SumNonNegative(xs: seq<real>)
    requires forall x :: x in xs ==> x >= 0.0
    ensures Sum(xs) >= 0.0
  {
    if xs != [] {
      assert xs[0] in xs && forall x :: x in xs[1..] ==> x in xs;
      SumNonNegative(xs[1..]);
    }
  }

  lemma {:induction false} SumPositive(xs: seq<real>, k: nat)
    requires forall x :: x in xs ==> x >= 0.0
    requires k < |xs| && xs[k] > 0.0
    ensures Sum(xs) > 0.0
  {
    assert xs[0] in xs && forall x :: x in xs[1..] ==> x in xs;
    if k == 0 {
      SumNonNegative(xs[1..]);
    } else {
      SumPositive(xs[1..], k - 1);
    }
  }

  lemma {:induction false} SumConstant(xs: seq<real>, c: real)
    requires forall x :: x in xs ==> x == c
    ensures Sum(xs) == |xs| as real * c
  {
    if xs != [] {
      assert xs[0] in xs && forall x :: x in xs[1..] ==> x in xs;
      SumConstant(xs[1..], c);
    }
  }

  lemma ProductPositive(a: real, b: real)
    requires a > 0.0 && b > 0.0
    ensures a * b > 0.0
  {
  }

  lemma ProductOfNegativesPositive(a: real, b: real)
    requires a < 0.0 && b < 0.0
    ensures a * b > 0.0
  {
  }

  lemma ProductNonNegative(a: real, b: real)
    requires (a >= 0.0 && b >= 0.0) || (a <= 0.0 && b <= 0.0)
    ensures a * b >= 0.0
  {
  }

  /** A square is never negative. */
  lemma SquareNonNegative(x: real)
    ensures Square(x) >= 0.0
  {
    assert Power(x, 1) == x;
    ProductNonNegative(x, Power(x, 1));
  }

  /** The square of a non-zero number is positive. */
  lemma SquarePositive(x: real)
    requires x != 0.0
    ensures Square(x) > 0.0
  {
    assert Power(x, 1) == x;
    if x > 0.0 {
      ProductPositive(x, Power(x, 1));
    } else {
      ProductOfNegativesPositive(x, Power(x, 1));
    }
  }

  lemma {:induction false} SumSquaredDeviationsNonNegative(xs: seq<real>, m: real)
    ensures SumSquaredDeviations(xs, m) >= 0.0
  {
    if xs != [] {
      SquareNonNegative(xs[0] - m);
      SumSquaredDeviationsNonNegative(xs[1..], m);
    }
  }

  /** One value away from the centre makes the squared deviations positive. */
  lemma {:induction false} SumSquaredDeviationsPositive(xs: seq<real>, m: real, k: nat)
    requires k < |xs| && xs[k] != m
    ensures SumSquaredDeviations(xs, m) > 0.0
  {
    if k == 0 {
      SquarePositive(xs[0] - m);
      SumSquaredDeviationsNonNegative(xs[1..], m);
    } else {
      SquareNonNegative(xs[0] - m);
      SumSquaredDeviationsPositive(xs[1..], m, k - 1);
    }
  }

  lemma {:induction false} SumSquaredDeviationsAtCentre(xs: seq<real>, m: real)
    requires forall x :: x in xs ==> x == m
    ensures SumSquaredDeviations(xs, m) == 0.0
  {
    if xs != [] {
      assert xs[0] in xs && forall x :: x in xs[1..] ==> x in xs;
      assert Square(0.0) == 0.0;
      SumSquaredDeviationsAtCentre(xs[1..], m);
    }
  }

  /** The squared deviations add up to zero exactly when every value is the centre. */
  lemma SumSquaredDeviationsZero(xs: seq<real>, m: real)
    ensures SumSquaredDeviations(xs, m) == 0.0 <==> forall x :: x in xs ==> x == m
  {
    if forall x :: x in xs ==> x == m {
      SumSquaredDeviationsAtCentre(xs, m);
    } else {
      var k :| 0 <= k < |xs| && xs[k] != m;
      SumSquaredDeviationsPositive(xs, m, k);
    }
  }

  lemma MeanConstant(xs: seq<real>, c: real)
    requires |xs| > 0
    requires forall x :: x in xs ==> x == c
    ensures Mean(xs) == c
  {
    SumConstant(xs, c);
  }

  lemma MeanNonNegative(xs: seq<real>)
    requires |xs| > 0
    requires forall x :: x in xs ==> x >= 0.0
    ensures Mean(xs) >= 0.0
  {
    SumNonNegative(xs);
  }

  lemma SampleVarianceNonNegative(xs: seq<real>)
    requires |xs| > 1
    ensures SampleVariance(xs) >= 0.0
  {
    SumSquaredDeviationsNonNegative(xs, Mean(xs));
  }

  /** The sample variance vanishes exactly on a constant sample, whose values are all the mean. */
  lemma SampleVarianceZeroIff(xs: seq<real>)
    requires |xs| > 1
    ensures SampleVariance(xs) == 0.0 <==> forall x :: x in xs ==> x == Mean(xs)
  {
    SumSquaredDeviationsZero(xs, Mean(xs));
  }

  // ---------------------------------------------------------------------
  // Observed values of a window
  // ---------------------------------------------------------------------

  /** The present entries of a column, in order (pandas skips NaN inside a window). */
  function Observed(s: Column): (r: seq<real>)
    ensures |r| <= |s|
  {
    if s == [] then [] else (if s[0].Some? then [s[0].value] else []) + Observed(s[1..])
  }

  lemma {:induction false} ObservedComplete(s: Column)
    requires Complete(s)
    ensures |Observed(s)| == |s|
    ensures forall k :: 0 <= k < |s| ==> Observed(s)[k] == s[k].value
  {
    if s != [] {
      ObservedComplete(s[1..]);
    }
  }

  /** Three present values: their observations and their mean. */
  lemma MeanOfThree(a: real, b: real, d: real)
    ensures Observed([Some(a), Some(b), Some(d)]) == [a, b, d]
    ensures Mean([a, b, d]) == (a + b + d) / 3.0
  {
    var s := [Some(a), Some(b), Some(d)];
    ObservedComplete(s);
    assert [a, b, d][1..] == [b, d] && [b, d][1..] == [d] && [d][1..] == [];
    assert Sum([d]) == d;
    assert Sum([b, d]) == b + d;
  }

  lemma {:induction false} ObservedContains(s: Column, k: nat)
    requires k < |s| && s[k].Some?
    ensures s[k].value in Observed(s)
  {
    if k > 0 {
      ObservedContains(s[1..], k - 1);
    }
  }

  lemma {:induction false} ObservedAllSatisfy(s: Column, lo: real)
    requires forall k :: 0 <= k < |s| && s[k].Some? ==> s[k].value >= lo
    ensures forall x :: x in Observed(s) ==> x >= lo
  {
    if s != [] {
      ObservedAllSatisfy(s[1..], lo);
    }
  }

  lemma {:induction false} ObservedAllPositive(s: Column)
    requires forall k :: 0 <= k < |s| && s[k].Some? ==> s[k].value > 0.0
    ensures forall x :: x in Observed(s) ==> x > 0.0
  {
    if s != [] {
      ObservedAllPositive(s[1..]);
    }
  }

  lemma {:induction false} ObservedAllEqual(s: Column, c: real)
    requires forall k :: 0 <= k < |s| && s[k].Some? ==> s[k].value == c
    ensures forall x :: x in Observed(s) ==> x == c
  {
    if s != [] {
      ObservedAllEqual(s[1..], c);
    }
  }

  /** Two columns missing at the same places have as many observations. */
  lemma {:induction false} ObservedSamePattern(a: Column, b: Column)
    requires |a| == |b|
    requires forall k :: 0 <= k < |a| ==> (a[k].Some? <==> b[k].Some?)
    ensures |Observed(a)| == |Observed(b)|
  {
    if a != [] {
      ObservedSamePattern(a[1..], b[1..]);
    }
  }

  lemma {:induction false} ObservedEmpty(s: Column)
    requires forall k :: 0 <= k < |s| ==> s[k].None?
    ensures Observed(s) == []
  {
    if s != [] {
      ObservedEmpty(s[1..]);
    }
  }

  // ---------------------------------------------------------------------
  // Rolling windows (`Series.rolling(window, center, min_periods)`)
  // ---------------------------------------------------------------------

  /** The rolling options the calculators pass on: `window` and the optional `center`, `min_periods`. */
  datatype RollingConfig = RollingConfig(window: int, center: Option<bool>, minPeriods: Option<int>)

  /** The `ValueError`s pandas raises when the rolling object is created. */
  datatype RollingError = MinPeriodsNegative | MinPeriodsAboveWindow | WindowNegative

  /** pandas' validation, in its order; `None` means the options are accepted. */
  function RollingCheck(cfg: RollingConfig): (r: Option<RollingError>)
    ensures r.None? <==>
      cfg.window >= 0 && (cfg.minPeriods.Some? ==> 0 <= cfg.minPeriods.value <= cfg.window)
    ensures r == Some(MinPeriodsNegative) <==> cfg.minPeriods.Some? && cfg.minPeriods.value < 0
    ensures r == Some(MinPeriodsAboveWindow) <==>
      cfg.minPeriods.Some? && 0 <= cfg.minPeriods.value && cfg.minPeriods.value > cfg.window
    ensures r == Some(WindowNegative) <==>
      (cfg.minPeriods.Some? ==> 0 <= cfg.minPeriods.value <= cfg.window) && cfg.window < 0
  {
    if cfg.minPeriods.Some? && cfg.minPeriods.value < 0 then Some(MinPeriodsNegative)
    else if cfg.minPeriods.Some? && cfg.minPeriods.value > cfg.window then Some(MinPeriodsAboveWindow)
    else if cfg.window < 0 then Some(WindowNegative)
    else None
  }

  /** Observations a window needs; `min_periods` defaults to the window size. */
  function MinPeriods(cfg: RollingConfig): int {
    if cfg.minPeriods.Some? then cfg.minPeriods.value else cfg.window
  }

  /** How far past position i a window reaches: `(window - 1) // 2` when centred (or empty), else 0. */
  function Offset(cfg: RollingConfig): int {
    if cfg.center == Some(true) || cfg.window == 0 then (cfg.window - 1) / 2 else 0
  }

  function Clip(x: int, n: nat): (r: nat)
    ensures r <= n
  {
    if x < 0 then 0 else if x > n then n else x
  }

  /** First position of the window for position i of an n-entry column. */
  function WindowStart(n: nat, i: nat, cfg: RollingConfig): nat {
    Clip(i + 1 + Offset(cfg) - cfg.window, n)
  }

  /** One past the last position of the window for position i. */
  function WindowEnd(n: nat, i: nat, cfg: RollingConfig): nat {
    Clip(i + 1 + Offset(cfg), n)
  }

  /** The entries of the window for position i. */
  function Window(s: Column, i: nat, cfg: RollingConfig): (w: Column)
    requires i < |s| && cfg.window >= 0
    ensures |w| <= cfg.window
  {
    s[WindowStart(|s|, i, cfg)..WindowEnd(|s|, i, cfg)]
  }

  /** A window of positive size always holds its own position. */
  lemma WindowHoldsPosition(n: nat, i: nat, cfg: RollingConfig)
    requires i < n && cfg.window >= 1
    ensures WindowStart(n, i, cfg) <= i < WindowEnd(n, i, cfg)
  {
  }

  /** Without centring, the window is the `window` entries ending at i, cut at the start. */
  lemma TrailingWindow(n: nat, i: nat, cfg: RollingConfig)
    requires i < n && cfg.window >= 1 && cfg.center != Some(true)
    ensures WindowEnd(n, i, cfg) == i + 1
    ensures WindowStart(n, i, cfg) == if i + 1 >= cfg.window then i + 1 - cfg.window else 0
  {
  }

  /**
   * With centring, the window reaches `(window - 1) / 2` entries past i and
   * `window / 2` entries before it, cut at both ends of the column.
   */
  lemma CentredWindow(n: nat, i: nat, cfg: RollingConfig)
    requires i < n && cfg.window >= 1 && cfg.center == Some(true)
    ensures WindowEnd(n, i, cfg) == if i + 1 + (cfg.window - 1) / 2 <= n then i + 1 + (cfg.window - 1) / 2 else n
    ensures WindowStart(n, i, cfg) == if i >= cfg.window / 2 then i - cfg.window / 2 else 0
    ensures (cfg.window - 1) / 2 + cfg.window / 2 + 1 == cfg.window
  {
  }

  /**
   * A trailing window with the default `min_periods` whose `window` entries
   * are all present has a mean, and a standard deviation once it holds two.
   */
  lemma FullWindowPresent(s: Column, cfg: RollingConfig, root: real -> real, i: nat)
    requires cfg.window >= 1 && cfg.center != Some(true) && cfg.minPeriods.None?
    requires i < |s| && i + 1 >= cfg.window
    requires forall k :: i + 1 - cfg.window <= k <= i ==> s[k].Some?
    ensures RollingMean(s, cfg)[i].Some?
    ensures cfg.window >= 2 ==> RollingStd(s, cfg, root)[i].Some?
  {
    TrailingWindow(|s|, i, cfg);
    var w := Window(s, i, cfg);
    assert w == s[i + 1 - cfg.window..i + 1];
    assert forall k :: 0 <= k < |w| ==> w[k] == s[i + 1 - cfg.window + k];
    ObservedComplete(w);
    RollingMeanAt(s, cfg, i);
    RollingStdAt(s, cfg, root, i);
  }

  function WindowMean(obs: seq<real>, minp: int): Option<real> {
    if |obs| >= minp && |obs| > 0 then Some(Mean(obs)) else None
  }

  function WindowVariance(obs: seq<real>, minp: int): Option<real> {
    if |obs| >= minp && |obs| > 1 then Some(SampleVariance(obs)) else None
  }

  /** `rolling(...).mean()` */
  function RollingMean(s: Column, cfg: RollingConfig): (r: Column)
    requires cfg.window >= 0
    ensures |r| == |s|
  {
    seq(|s|, i requires 0 <= i < |s| => WindowMean(Observed(Window(s, i, cfg)), MinPeriods(cfg)))
  }

  /** `rolling(...).var()` with one degree of freedom */
  function RollingVariance(s: Column, cfg: RollingConfig): (r: Column)
    requires cfg.window >= 0
    ensures |r| == |s|
  {
    seq(|s|, i requires 0 <= i < |s| => WindowVariance(Observed(Window(s, i, cfg)), MinPeriods(cfg)))
  }

  /**
   * `root` is the square root the numeric library supplies (Dafny's reals
   * have none); the lemmas below assume it is one.
   */
  ghost predicate IsSquareRoot(root: real -> real) {
    forall x {:trigger root(x)} :: x >= 0.0 ==> root(x) >= 0.0 && Square(root(x)) == x
  }

  /** `rolling(...).std()`: the square root of the sample variance. */
  function RollingStd(s: Column, cfg: RollingConfig, root: real -> real): (r: Column)
    requires cfg.window >= 0
    ensures |r| == |s|
  {
    var v := RollingVariance(s, cfg);
    seq(|s|, i requires 0 <= i < |s| => if v[i].Some? then Some(root(v[i].value)) else None)
  }

  /** A rolling mean is present exactly when the window has enough observations, and is their mean. */
  lemma RollingMeanAt(s: Column, cfg: RollingConfig, i: nat)
    requires cfg.window >= 0 && i < |s|
    ensures var obs := Observed(Window(s, i, cfg));
      (RollingMean(s, cfg)[i].Some? <==> |obs| >= MinPeriods(cfg) && |obs| > 0)
      && (RollingMean(s, cfg)[i].Some? ==> RollingMean(s, cfg)[i].value == Mean(obs))
  {
  }

  /**
   * The rolling standard deviation is present exactly when the window has
   * at least two observations and enough for `min_periods`; it is then the
   * non-negative root of the window's sample variance.
   */
  lemma RollingStdAt(s: Column, cfg: RollingConfig, root: real -> real, i: nat)
    requires cfg.window >= 0 && i < |s|
    ensures var obs := Observed(Window(s, i, cfg));
      var sd := RollingStd(s, cfg, root)[i];
      (sd.Some? <==> |obs| >= MinPeriods(cfg) && |obs| > 1)
      && (sd.Some? && IsSquareRoot(root) ==> sd.value >= 0.0 && Square(sd.value) == SampleVariance(obs))
  {
    var obs := Observed(Window(s, i, cfg));
    if |obs| > 1 {
      SampleVarianceNonNegative(obs);
    }
  }

  /** Wherever the rolling standard deviation is present, so is the rolling mean, and the deviation is non-negative. */
  lemma RollingStdWithMean(s: Column, cfg: RollingConfig, root: real -> real, i: nat)
    requires cfg.window >= 0 && i < |s| && IsSquareRoot(root)
    ensures RollingStd(s, cfg, root)[i].Some? ==>
      RollingMean(s, cfg)[i].Some? && RollingStd(s, cfg, root)[i].value >= 0.0
  {
    RollingStdAt(s, cfg, root, i);
    RollingMeanAt(s, cfg, i);
  }

  /** A zero standard deviation means every observation in the window equals its mean. */
  lemma RollingStdZero(s: Column, cfg: RollingConfig, root: real -> real, i: nat)
    requires cfg.window >= 0 && i < |s| && IsSquareRoot(root)
    requires RollingStd(s, cfg, root)[i] == Some(0.0)
    ensures RollingMean(s, cfg)[i].Some?
    ensures forall x :: x in Observed(Window(s, i, cfg)) ==> x == RollingMean(s, cfg)[i].value
  {
    var obs := Observed(Window(s, i, cfg));
    RollingStdAt(s, cfg, root, i);
    SampleVarianceZeroIff(obs);
  }

  /** When every observation of the window is the same value, the standard deviation is zero. */
  lemma RollingStdConstant(s: Column, cfg: RollingConfig, root: real -> real, i: nat, c: real)
    requires cfg.window >= 0 && i < |s| && IsSquareRoot(root)
    requires forall k :: 0 <= k < |Window(s, i, cfg)| && Window(s, i, cfg)[k].Some? ==> Window(s, i, cfg)[k].value == c
    requires RollingStd(s, cfg, root)[i].Some?
    ensures RollingStd(s, cfg, root)[i] == Some(0.0)
    ensures RollingMean(s, cfg)[i] == Some(c)
  {
    var obs := Observed(Window(s, i, cfg));
    ObservedAllEqual(Window(s, i, cfg), c);
    MeanConstant(obs, c);
    SampleVarianceZeroIff(obs);
    RollingStdAt(s, cfg, root, i);
    if root(0.0) != 0.0 {
      SquarePositive(root(0.0));
    }
  }

  /**
   * Warm-up: on a complete column with a trailing window and default
   * `min_periods`, the mean at i is present exactly from position
   * `window - 1` on, and is the mean of the last `window` values.
   */
  lemma RollingMeanWarmUp(s: Column, w: int, center: Option<bool>, i: nat)
    requires Complete(s) && w >= 1 && center != Some(true) && i < |s|
    ensures var ma := RollingMean(s, RollingConfig(w, center, None));
      (ma[i].Some? <==> i >= w - 1)
      && (i >= w - 1 ==> ma[i].value == Mean(Observed(s[i + 1 - w..i + 1])))
  {
    var cfg := RollingConfig(w, center, None);
    TrailingWindow(|s|, i, cfg);
    ObservedComplete(Window(s, i, cfg));
  }

  /** `min_periods` lowers the warm-up: the mean is present from position `min_periods - 1` on. */
  lemma RollingMeanMinPeriods(s: Column, w: int, center: Option<bool>, m: int, i: nat)
    requires Complete(s) && 1 <= m <= w && center != Some(true) && i < |s|
    ensures RollingMean(s, RollingConfig(w, center, Some(m)))[i].Some? <==> i + 1 >= m
  {
    var cfg := RollingConfig(w, center, Some(m));
    TrailingWindow(|s|, i, cfg);
    ObservedComplete(Window(s, i, cfg));
  }

  /** A rolling mean of non-negative entries is non-negative. */
  lemma RollingMeanNonNegative(s: Column, cfg: RollingConfig)
    requires cfg.window >= 0
    requires forall k :: 0 <= k < |s| && s[k].Some? ==> s[k].value >= 0.0
    ensures forall i :: 0 <= i < |s| && RollingMean(s, cfg)[i].Some? ==> RollingMean(s, cfg)[i].value >= 0.0
  {
    forall i | 0 <= i < |s| && RollingMean(s, cfg)[i].Some?
      ensures RollingMean(s, cfg)[i].value >= 0.0
    {
      var obs := Observed(Window(s, i, cfg));
      ObservedAllSatisfy(Window(s, i, cfg), 0.0);
      SumNonNegative(obs);
    }
  }

  /** A rolling mean of positive entries is positive. */
  lemma RollingMeanPositive(s: Column, cfg: RollingConfig, i: nat)
    requires cfg.window >= 0 && i < |s| && RollingMean(s, cfg)[i].Some?
    requires forall k :: 0 <= k < |s| && s[k].Some? ==> s[k].value > 0.0
    ensures RollingMean(s, cfg)[i].value > 0.0
  {
    var w := Window(s, i, cfg);
    var obs := Observed(w);
    var start := WindowStart(|s|, i, cfg);
    assert forall k :: 0 <= k < |w| ==> w[k] == s[start + k];
    ObservedAllPositive(w);
    RollingMeanAt(s, cfg, i);
    assert obs[0] in obs;
    SumPositive(obs, 0);
  }

  /** A rolling mean of entries that all equal c is c. */
  lemma RollingMeanConstant(s: Column, cfg: RollingConfig, i: nat, c: real)
    requires cfg.window >= 0 && i < |s| && RollingMean(s, cfg)[i].Some?
    requires forall k :: 0 <= k < |s| && s[k].Some? ==> s[k].value == c
    ensures RollingMean(s, cfg)[i].value == c
  {
    var w := Window(s, i, cfg);
    assert forall k :: 0 <= k < |w| && w[k].Some? ==> w[k].value == c;
    ObservedAllEqual(w, c);
    MeanConstant(Observed(w), c);
  }

  /** Two columns with the same missing entries have rolling means present at the same positions. */
  lemma RollingMeanSamePattern(a: Column, b: Column, cfg: RollingConfig, i: nat)
    requires cfg.window >= 0 && |a| == |b| && i < |a|
    requires forall k :: 0 <= k < |a| ==> (a[k].Some? <==> b[k].Some?)
    ensures RollingMean(a, cfg)[i].Some? <==> RollingMean(b, cfg)[i].Some?
  {
    var wa := Window(a, i, cfg);
    var wb := Window(b, i, cfg);
    assert forall k :: 0 <= k < |wa| ==> (wa[k].Some? <==> wb[k].Some?);
    ObservedSamePattern(wa, wb);
  }
}
