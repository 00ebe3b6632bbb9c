/**
 * MACD: the difference of a fast and a slow exponential moving average of
 * the forward-filled prices (`macd`), its own exponential moving average
 * (`macd_ema`), and a signal taken from the sign of their difference.
 *
 * The moving averages are pandas `Series.ewm(span, adjust=False).mean()`
 * with `ignore_na=False`, as the calculator configures them.
 */
module Macd {
  import opened Wrappers
  import opened Series

  /** The output columns, in order. */
  const Columns: seq<string> := ["value", "macd", "macd_ema", "signal"]

  /** The three spans, and the `min_periods` option passed on to `ewm` (pandas' default 0). */
  datatype Calculator = Calculator(fastEmaSpan: int, slowEmaSpan: int, macdEmaSpan: int, minPeriods: int)

  /** The constructor's `ValueError`. */
  datatype ConfigError = FastSpanNotBelowSlowSpan

  /** What can go wrong in `calculate`. */
  datatype Error =
    | SpanBelowOne(span: int)  // pandas' `ValueError`: span must satisfy span >= 1
    | MissingSignal            // `astype(int)` meets a NaN signal

  /** The constructor: it rejects a fast span that is not below the slow one. */
  function NewCalculator(
    fastEmaSpan: int := 12,
    slowEmaSpan: int := 26,
    macdEmaSpan: int := 9,
    minPeriods: int := 0): (r: Result<Calculator, ConfigError>)
    ensures r.Failure? <==> fastEmaSpan >= slowEmaSpan
    ensures r.Failure? ==> r.error == FastSpanNotBelowSlowSpan
    ensures r.Success? ==> r.value == Calculator(fastEmaSpan, slowEmaSpan, macdEmaSpan, minPeriods)
  {
    if fastEmaSpan >= slowEmaSpan then Failure(FastSpanNotBelowSlowSpan)
    else Success(Calculator(fastEmaSpan, slowEmaSpan, macdEmaSpan, minPeriods))
  }

  lemma DefaultCalculator()
    ensures NewCalculator() == Success(Calculator(12, 26, 9, 0))
  {
  }

  // ---------------------------------------------------------------------
  // Exponentially weighted mean (`adjust=False`, `ignore_na=False`)
  // ---------------------------------------------------------------------

  /** The smoothing factor for a span: `2 / (span + 1)`. */
  function Alpha(span: int): (a: real)
    requires span >= 1
    ensures 0.0 < a <= 1.0
  {
    2.0 / (span + 1) as real
  }

  /** The running state of pandas' `ewm` kernel: the weighted mean, the old weight, the observation count. */
  datatype EwmState = EwmState(weighted: Option<real>, oldWt: real, nobs: nat)

  const EwmStart: EwmState := EwmState(None, 1.0, 0)

  /**
   * The new weighted mean after observation c: the old mean v and c weighted
   * `ow` and `alpha`; the kernel skips the arithmetic when they are equal.
   */
  function Blend(v: real, ow: real, c: real, alpha: real): real
    requires ow >= 0.0 && alpha > 0.0
  {
    if v != c then (ow * v + alpha * c) / (ow + alpha) else v
  }

  /** One entry of the kernel loop. */
  function EwmStep(st: EwmState, x: Option<real>, alpha: real): (r: EwmState)
    requires 0.0 < alpha <= 1.0 && 0.0 <= st.oldWt <= 1.0
    ensures 0.0 <= r.oldWt <= 1.0
    ensures r.nobs == st.nobs + (if x.Some? then 1 else 0)
    ensures x.Some? ==> r.weighted.Some?
    ensures x.Some? && (st.weighted.Some? || st.oldWt == 1.0) ==> r.oldWt == 1.0
    ensures r.weighted.None? ==> r.oldWt == st.oldWt
    ensures r.weighted.Some? <==> st.weighted.Some? || x.Some?
  {
    match st.weighted
    case None =>
      if x.Some? then EwmState(x, st.oldWt, st.nobs + 1) else st
    case Some(v) =>
      var ow := st.oldWt * (1.0 - alpha);
      WeightDecays(st.oldWt, 1.0 - alpha);
      if x.Some? then
        EwmState(Some(Blend(v, ow, x.value, alpha)), 1.0, st.nobs + 1)
      else
        EwmState(st.weighted, ow, st.nobs)
  }

  /** Multiplying the old weight by `1 - alpha` keeps it in [0, 1]. */
  lemma WeightDecays(w: real, f: real)
    requires 0.0 <= w <= 1.0 && 0.0 <= f <= 1.0
    ensures 0.0 <= w * f <= 1.0
  {
    ProductNonNegative(w, f);
    ProductNonNegative(w, 1.0 - f);
    assert w * (1.0 - f) == w - w * f;
  }

  lemma DecayedWeight(w: real, f: real) returns (r: real)
    requires 0.0 <= w <= 1.0 && 0.0 <= f <= 1.0
    ensures r == w * f && 0.0 <= r <= 1.0
  {
    r := w * f;
    WeightDecays(w, f);
  }

  /** The kernel state after the first n entries of the column. */
  function EwmFold(xs: Column, n: nat, alpha: real): (r: EwmState)
    requires n <= |xs| && 0.0 < alpha <= 1.0
    ensures 0.0 <= r.oldWt <= 1.0
    ensures r.weighted.None? ==> r.oldWt == 1.0
    ensures r.weighted.Some? <==> r.nobs > 0
  {
    if n == 0 then EwmStart
    else EwmStep(EwmFold(xs, n - 1, alpha), xs[n - 1], alpha)
  }

  /** The output for a state: the weighted mean once `max(min_periods, 1)` observations are in. */
  function EwmOutput(st: EwmState, minPeriods: int): Option<real> {
    if st.nobs >= (if minPeriods > 1 then minPeriods else 1) then st.weighted else None
  }

  /** `Series.ewm(span, adjust=False, min_periods).mean()` */
  function EwmMean(xs: Column, span: int, minPeriods: int): (r: Column)
    requires span >= 1
    ensures |r| == |xs|
  {
    seq(|xs|, i requires 0 <= i < |xs| => EwmOutput(EwmFold(xs, i + 1, Alpha(span)), minPeriods))
  }

  lemma {:induction false} ObservedSnoc(xs: Column)
    requires xs != []
    ensures Observed(xs) == Observed(xs[..|xs| - 1]) + (if xs[|xs| - 1].Some? then [xs[|xs| - 1].value] else [])
  {
    if |xs| > 1 {
      ObservedSnoc(xs[1..]);
      assert xs[1..][..|xs| - 2] == xs[..|xs| - 1][1..];
    } else {
      assert xs[..0] == [];
    }
  }

  /** The kernel counts the observations among the entries it has seen. */
  lemma {:induction false} EwmCountsObservations(xs: Column, n: nat, alpha: real)
    requires n <= |xs| && 0.0 < alpha <= 1.0
    ensures EwmFold(xs, n, alpha).nobs == |Observed(xs[..n])|
  {
    if n > 0 {
      EwmCountsObservations(xs, n - 1, alpha);
      ObservedSnoc(xs[..n]);
      assert xs[..n][..n - 1] == xs[..n - 1];
    } else {
      assert xs[..0] == [];
    }
  }

  /** The kernel has a weighted mean exactly when it has seen an observation. */
  lemma {:induction false} EwmWeightedIffObserved(xs: Column, n: nat, alpha: real)
    requires n <= |xs| && 0.0 < alpha <= 1.0
    ensures EwmFold(xs, n, alpha).weighted.Some? <==> exists k :: 0 <= k < n && xs[k].Some?
  {
    if n > 0 {
      EwmWeightedIffObserved(xs, n - 1, alpha);
    }
  }

  /** After an observation the kernel has a mean and its old weight is back to 1. */
  lemma EwmObservationResetsWeight(xs: Column, n: nat, alpha: real)
    requires 0 < n <= |xs| && 0.0 < alpha <= 1.0 && xs[n - 1].Some?
    ensures EwmFold(xs, n, alpha).weighted.Some? && EwmFold(xs, n, alpha).oldWt == 1.0
  {
  }

  /** The textbook exponential moving average step: `alpha * c + (1 - alpha) * prev`. */
  function Ema(c: real, prev: real, alpha: real): real {
    alpha * c + (1.0 - alpha) * prev
  }

  /** With the old weight back at 1, the blend is the textbook step. */
  lemma BlendAfterReset(v: real, c: real, alpha: real)
    requires 0.0 < alpha <= 1.0
    ensures Blend(v, 1.0 * (1.0 - alpha), c, alpha) == Ema(c, v, alpha)
  {
    var ow := 1.0 * (1.0 - alpha);
    assert ow == 1.0 - alpha;
    assert ow + alpha == 1.0;
  }

  lemma {:induction false} EwmStepAfterReset(st: EwmState, c: real, alpha: real)
    requires 0.0 < alpha <= 1.0 && st.weighted.Some? && st.oldWt == 1.0
    ensures EwmStep(st, Some(c), alpha).weighted == Some(Ema(c, st.weighted.value, alpha))
  {
    BlendAfterReset(st.weighted.value, c, alpha);
  }

  lemma {:induction false} EwmFoldStep(xs: Column, n: nat, alpha: real)
    requires 0.0 < alpha <= 1.0 && n < |xs|
    ensures EwmFold(xs, n + 1, alpha) == EwmStep(EwmFold(xs, n, alpha), xs[n], alpha)
  {
  }

  /**
   * On a gap-free stretch the weighted mean follows the textbook recursion
   * `ema[i] = alpha * x[i] + (1 - alpha) * ema[i - 1]`.
   */
  lemma {:induction false} EwmRecurrence(xs: Column, alpha: real, i: nat)
    requires 0.0 < alpha <= 1.0 && 0 < i < |xs| && xs[i - 1].Some? && xs[i].Some?
    ensures EwmFold(xs, i, alpha).weighted.Some?
    ensures EwmFold(xs, i + 1, alpha).weighted
      == Some(Ema(xs[i].value, EwmFold(xs, i, alpha).weighted.value, alpha))
  {
    EwmObservationResetsWeight(xs, i, alpha);
    EwmFoldStep(xs, i, alpha);
    EwmStepAfterReset(EwmFold(xs, i, alpha), xs[i].value, alpha);
  }

  /**
   * The textbook EMA of the first n values of a complete column: it starts at
   * the first value and then takes one `Ema` step per value.
   */
  function TextbookEma(xs: Column, n: nat, alpha: real): real
    requires Complete(xs) && 0 < n <= |xs|
  {
    if n == 1 then xs[0].value else Ema(xs[n - 1].value, TextbookEma(xs, n - 1, alpha), alpha)
  }

  /** On a complete column the kernel computes the textbook EMA. */
  lemma {:induction false} EwmIsTextbookEma(xs: Column, n: nat, alpha: real)
    requires Complete(xs) && 0 < n <= |xs| && 0.0 < alpha <= 1.0
    ensures EwmFold(xs, n, alpha).weighted == Some(TextbookEma(xs, n, alpha))
  {
    if n == 1 {
      EwmFirstObservation(xs, alpha, 0);
    } else {
      EwmIsTextbookEma(xs, n - 1, alpha);
      EwmRecurrence(xs, alpha, n - 1);
    }
  }

  /** The first observation is taken as it is. */
  lemma EwmFirstObservation(xs: Column, alpha: real, i: nat)
    requires 0.0 < alpha <= 1.0 && i < |xs| && xs[i].Some?
    requires forall k :: 0 <= k < i ==> xs[k].None?
    ensures EwmFold(xs, i + 1, alpha).weighted == xs[i]
  {
    EwmWeightedIffObserved(xs, i, alpha);
  }

  /** The weighted mean stays between the smallest and the largest observation. */
  lemma {:induction false} EwmWithinBounds(xs: Column, n: nat, alpha: real, lo: real, hi: real)
    requires n <= |xs| && 0.0 < alpha <= 1.0
    requires forall k :: 0 <= k < n && xs[k].Some? ==> lo <= xs[k].value <= hi
    ensures EwmFold(xs, n, alpha).weighted.Some? ==> lo <= EwmFold(xs, n, alpha).weighted.value <= hi
  {
    if n > 0 {
      EwmWithinBounds(xs, n - 1, alpha, lo, hi);
      EwmStepWithinBounds(EwmFold(xs, n - 1, alpha), xs[n - 1], alpha, lo, hi);
    }
  }

  lemma EwmStepWithinBounds(st: EwmState, x: Option<real>, alpha: real, lo: real, hi: real)
    requires 0.0 < alpha <= 1.0 && 0.0 <= st.oldWt <= 1.0
    requires st.weighted.Some? ==> lo <= st.weighted.value <= hi
    requires x.Some? ==> lo <= x.value <= hi
    ensures EwmStep(st, x, alpha).weighted.Some? ==> lo <= EwmStep(st, x, alpha).weighted.value <= hi
  {
    if st.weighted.Some? && x.Some? {
      var ow := DecayedWeight(st.oldWt, 1.0 - alpha);
      BlendWithinBounds(st.weighted.value, ow, x.value, alpha, lo, hi);
    }
  }

  lemma BlendWithinBounds(v: real, ow: real, c: real, alpha: real, lo: real, hi: real)
    requires ow >= 0.0 && alpha > 0.0 && lo <= v <= hi && lo <= c <= hi
    ensures lo <= Blend(v, ow, c, alpha) <= hi
  {
    if v != c {
      ConvexCombination(ow, alpha, v, c, lo, hi);
    }
  }

  /** A weighted average of two values in [lo, hi] with non-negative weights, not both zero, is in [lo, hi]. */
  lemma ConvexCombination(p: real, q: real, a: real, b: real, lo: real, hi: real)
    requires p >= 0.0 && q > 0.0 && lo <= a <= hi && lo <= b <= hi
    ensures lo <= (p * a + q * b) / (p + q) <= hi
  {
    ProductNonNegative(p, a - lo);
    ProductNonNegative(q, b - lo);
    ProductNonNegative(p, hi - a);
    ProductNonNegative(q, hi - b);
    var s := p + q;
    var m := p * a + q * b;
    assert p * (a - lo) == p * a - p * lo;
    assert q * (b - lo) == q * b - q * lo;
    assert p * (hi - a) == p * hi - p * a;
    assert q * (hi - b) == q * hi - q * b;
    assert m >= lo * s;
    assert m <= hi * s;
    DivisionBounds(m, s, lo, hi);
  }

  lemma DivisionBounds(m: real, s: real, lo: real, hi: real)
    requires s > 0.0 && lo * s <= m <= hi * s
    ensures lo <= m / s <= hi
  {
  }

  /** A column whose observations all equal c averages to c. */
  lemma EwmConstant(xs: Column, n: nat, alpha: real, c: real)
    requires n <= |xs| && 0.0 < alpha <= 1.0
    requires forall k :: 0 <= k < n && xs[k].Some? ==> xs[k].value == c
    ensures EwmFold(xs, n, alpha).weighted.Some? ==> EwmFold(xs, n, alpha).weighted == Some(c)
  {
    EwmWithinBounds(xs, n, alpha, c, c);
  }

  // ---------------------------------------------------------------------
  // The calculation
  // ---------------------------------------------------------------------

  /** One output row. */
  datatype Row = Row(value: Option<real>, macd: Option<real>, macdEma: Option<real>, signal: int)

  function Positive(x: Option<real>): bool {
    x.Some? && x.value > 0.0
  }

  function Negative(x: Option<real>): bool {
    x.Some? && x.value < 0.0
  }

  /** `Series.mask(cond, v)`: v where the condition holds, the entry elsewhere. */
  function Mask(s: Option<real>, cond: bool, v: real): Option<real> {
    if cond then Some(v) else s
  }

  /** The four `mask` calls applied to `macd_ema_delta`, in order. */
  function MaskChain(delta: Option<real>, macd: Option<real>): (r: Option<real>)
    ensures r.Some? <==> delta.Some?
    ensures r.Some? ==> r.value == -1.0 || r.value == 0.0 || r.value == 1.0
  {
    var s1 := Mask(delta, Positive(delta) && Positive(macd), 2.0);
    var s2 := Mask(s1, Positive(delta), 1.0);
    var s3 := Mask(s2, Negative(delta) && Negative(macd), -2.0);
    Mask(s3, Negative(delta), -1.0)
  }

  /** `astype(int)` on a finite float: truncation toward zero. */
  function Truncate(x: real): (n: int)
    ensures x >= 0.0 ==> n as real <= x < n as real + 1.0
    ensures x < 0.0 ==> n as real - 1.0 < x <= n as real
  {
    if x >= 0.0 then x.Floor else -((-x).Floor)
  }

  function Sign(x: real): int {
    if x > 0.0 then 1 else if x < 0.0 then -1 else 0
  }

  /**
   * The later masks overwrite the earlier ones, so the chain yields the sign
   * of the delta and never 2 or -2; it leaves a missing delta missing.
   */
  lemma MaskChainIsSign(delta: Option<real>, macd: Option<real>)
    ensures MaskChain(delta, macd).Some? <==> delta.Some?
    ensures delta.Some? ==> Truncate(MaskChain(delta, macd).value) == Sign(delta.value)
    ensures MaskChain(delta, macd) != Some(2.0) && MaskChain(delta, macd) != Some(-2.0)
  {
  }

  /** The `macd` column: fast EMA minus slow EMA of the filled prices. */
  function MacdLine(c: Calculator, ff: Column): (r: Column)
    requires c.fastEmaSpan >= 1 && c.slowEmaSpan >= 1
    ensures |r| == |ff|
  {
    var fast := EwmMean(ff, c.fastEmaSpan, c.minPeriods);
    var slow := EwmMean(ff, c.slowEmaSpan, c.minPeriods);
    seq(|ff|, i requires 0 <= i < |ff| => Sub(fast[i], slow[i]))
  }

  /** The masked signal of each row, before `astype(int)`. */
  function SignalLine(macd: Column, macdEma: Column): (r: Column)
    requires |macd| == |macdEma|
    ensures |r| == |macd|
    ensures forall i :: 0 <= i < |macd| ==> (r[i].Some? <==> macd[i].Some? && macdEma[i].Some?)
  {
    seq(|macd|, i requires 0 <= i < |macd| => MaskChain(Sub(macd[i], macdEma[i]), macd[i]))
  }

  /** `calculate` */
  function Calculate(c: Calculator, values: Column): (r: Result<seq<Row>, Error>)
    ensures c.fastEmaSpan < 1 ==> r == Failure(SpanBelowOne(c.fastEmaSpan))
    ensures c.fastEmaSpan >= 1 && c.slowEmaSpan < 1 ==> r == Failure(SpanBelowOne(c.slowEmaSpan))
    ensures c.fastEmaSpan >= 1 && c.slowEmaSpan >= 1 && c.macdEmaSpan < 1 ==> r == Failure(SpanBelowOne(c.macdEmaSpan))
    ensures r.Success? ==> |r.value| == |values|
    ensures r.Success? ==> forall i :: 0 <= i < |values| ==> r.value[i].value == values[i]
  {
    if c.fastEmaSpan < 1 then Failure(SpanBelowOne(c.fastEmaSpan))
    else if c.slowEmaSpan < 1 then Failure(SpanBelowOne(c.slowEmaSpan))
    else if c.macdEmaSpan < 1 then Failure(SpanBelowOne(c.macdEmaSpan))
    else
      var macd := MacdLine(c, FFill(values));
      var macdEma := EwmMean(macd, c.macdEmaSpan, c.minPeriods);
      var signal := SignalLine(macd, macdEma);
      if exists i :: 0 <= i < |values| && signal[i].None? then
        Failure(MissingSignal)
      else
        Success(seq(|values|, i requires 0 <= i < |values| =>
          Row(values[i], macd[i], macdEma[i], Truncate(signal[i].value))))
  }

  // ---------------------------------------------------------------------
  // Properties of the EMA columns
  // ---------------------------------------------------------------------

  /** An EMA entry is present once `max(min_periods, 1)` observations are in. */
  lemma EwmMeanPresentIff(xs: Column, span: int, minPeriods: int, i: nat)
    requires span >= 1 && i < |xs|
    ensures EwmMean(xs, span, minPeriods)[i].Some?
      <==> |Observed(xs[..i + 1])| >= (if minPeriods > 1 then minPeriods else 1)
  {
    EwmCountsObservations(xs, i + 1, Alpha(span));
  }

  /** With `min_periods = m > 1` the first `m - 1` entries are missing. */
  lemma EwmMeanWarmUp(xs: Column, span: int, minPeriods: int, i: nat)
    requires span >= 1 && i < |xs| && i + 1 < minPeriods
    ensures EwmMean(xs, span, minPeriods)[i].None?
  {
    EwmMeanPresentIff(xs, span, minPeriods, i);
  }

  /** On a complete column with `min_periods <= 1` every entry is the textbook EMA. */
  lemma EwmMeanIsTextbookEma(xs: Column, span: int, minPeriods: int, i: nat)
    requires span >= 1 && Complete(xs) && minPeriods <= 1 && i < |xs|
    ensures EwmMean(xs, span, minPeriods)[i] == Some(TextbookEma(xs, i + 1, Alpha(span)))
  {
    EwmIsTextbookEma(xs, i + 1, Alpha(span));
  }

  lemma EwmMeanComplete(xs: Column, span: int, minPeriods: int)
    requires span >= 1 && Complete(xs) && minPeriods <= 1
    ensures Complete(EwmMean(xs, span, minPeriods))
  {
    forall i | 0 <= i < |xs|
      ensures EwmMean(xs, span, minPeriods)[i].Some?
    {
      EwmMeanIsTextbookEma(xs, span, minPeriods, i);
    }
  }

  /** The first EMA entry of a column whose first entry is present is that entry. */
  lemma EwmMeanFirst(xs: Column, span: int, minPeriods: int)
    requires span >= 1 && xs != [] && xs[0].Some? && minPeriods <= 1
    ensures EwmMean(xs, span, minPeriods)[0] == xs[0]
  {
    EwmFirstObservation(xs, Alpha(span), 0);
  }

  /** A missing first entry leaves the first EMA entry missing. */
  lemma EwmMeanFirstMissing(xs: Column, span: int, minPeriods: int)
    requires span >= 1 && xs != [] && xs[0].None?
    ensures EwmMean(xs, span, minPeriods)[0].None?
  {
    EwmWeightedIffObserved(xs, 1, Alpha(span));
  }

  // ---------------------------------------------------------------------
  // Properties of the calculation
  // ---------------------------------------------------------------------

  /** The spans `calculate` accepts: pandas rejects a span below 1. */
  predicate SpansValid(c: Calculator) {
    c.fastEmaSpan >= 1 && c.slowEmaSpan >= 1 && c.macdEmaSpan >= 1
  }

  /** With a missing first `macd`, the first signal is missing. */
  lemma FirstSignalMissing(c: Calculator, ff: Column)
    requires SpansValid(c) && ff != [] && MacdLine(c, ff)[0].None?
    ensures SignalLine(MacdLine(c, ff), EwmMean(MacdLine(c, ff), c.macdEmaSpan, c.minPeriods))[0].None?
  {
    var macd := MacdLine(c, ff);
    EwmMeanFirstMissing(macd, c.macdEmaSpan, c.minPeriods);
    MaskChainIsSign(Sub(macd[0], EwmMean(macd, c.macdEmaSpan, c.minPeriods)[0]), macd[0]);
  }

  /** On a complete filled column with `min_periods <= 1` every `macd` entry is present. */
  lemma MacdLineComplete(c: Calculator, ff: Column)
    requires SpansValid(c) && Complete(ff) && c.minPeriods <= 1
    ensures Complete(MacdLine(c, ff))
  {
    EwmMeanComplete(ff, c.fastEmaSpan, c.minPeriods);
    EwmMeanComplete(ff, c.slowEmaSpan, c.minPeriods);
  }

  /** ... and so is every signal. */
  lemma SignalLineComplete(c: Calculator, ff: Column)
    requires SpansValid(c) && Complete(ff) && c.minPeriods <= 1
    ensures Complete(SignalLine(MacdLine(c, ff), EwmMean(MacdLine(c, ff), c.macdEmaSpan, c.minPeriods)))
  {
    var macd := MacdLine(c, ff);
    MacdLineComplete(c, ff);
    EwmMeanComplete(macd, c.macdEmaSpan, c.minPeriods);
    var macdEma := EwmMean(macd, c.macdEmaSpan, c.minPeriods);
    forall i | 0 <= i < |ff|
      ensures SignalLine(macd, macdEma)[i].Some?
    {
      MaskChainIsSign(Sub(macd[i], macdEma[i]), macd[i]);
    }
  }

  /**
   * `calculate` fails exactly when a span is below 1 (the first one in the
   * order fast, slow, macd), or when the input is not empty and its first
   * value is missing or `min_periods` exceeds 1: then the first delta is NaN
   * and `astype(int)` raises.
   */
  lemma CalculateFailsIff(c: Calculator, values: Column)
    ensures Calculate(c, values).Failure?
      <==> !SpansValid(c) || (values != [] && (values[0].None? || c.minPeriods > 1))
    ensures Calculate(c, values).Failure? ==>
      Calculate(c, values).error ==
        (if c.fastEmaSpan < 1 then SpanBelowOne(c.fastEmaSpan)
         else if c.slowEmaSpan < 1 then SpanBelowOne(c.slowEmaSpan)
         else if c.macdEmaSpan < 1 then SpanBelowOne(c.macdEmaSpan)
         else MissingSignal)
  {
    if SpansValid(c) && values != [] {
      var ff := FFill(values);
      FFillCompleteIff(values);
      assert ff[0] == values[0];
      var macd := MacdLine(c, ff);
      var signal := SignalLine(macd, EwmMean(macd, c.macdEmaSpan, c.minPeriods));
      if values[0].None? {
        EwmMeanFirstMissing(ff, c.fastEmaSpan, c.minPeriods);
        FirstSignalMissing(c, ff);
        assert signal[0].None?;
      } else if c.minPeriods > 1 {
        EwmMeanWarmUp(ff, c.fastEmaSpan, c.minPeriods, 0);
        FirstSignalMissing(c, ff);
        assert signal[0].None?;
      } else {
        SignalLineComplete(c, ff);
      }
    }
  }

  /** Every signal is the sign of `macd - macd_ema`: 1, 0 or -1, never 2 or -2. */
  lemma CalculateSignalIsSign(c: Calculator, values: Column, i: nat)
    requires Calculate(c, values).Success? && i < |values|
    ensures Calculate(c, values).value[i].macd.Some? && Calculate(c, values).value[i].macdEma.Some?
    ensures Calculate(c, values).value[i].signal
      == Sign(Calculate(c, values).value[i].macd.value - Calculate(c, values).value[i].macdEma.value)
    ensures -1 <= Calculate(c, values).value[i].signal <= 1
  {
    var ff := FFill(values);
    var macd := MacdLine(c, ff);
    var macdEma := EwmMean(macd, c.macdEmaSpan, c.minPeriods);
    var signal := SignalLine(macd, macdEma);
    assert signal[i].Some?;
    MaskChainIsSign(Sub(macd[i], macdEma[i]), macd[i]);
  }

  /**
   * On success `macd` is the textbook EMA of the filled prices with the fast
   * span minus the one with the slow span, and `macd_ema` is the textbook EMA
   * of `macd` with the third span.
   */
  lemma CalculateIsTextbookMacd(c: Calculator, values: Column, i: nat)
    requires Calculate(c, values).Success? && i < |values|
    ensures Complete(FFill(values)) && Complete(MacdLine(c, FFill(values)))
    ensures Calculate(c, values).value[i].macd == Some(
      TextbookEma(FFill(values), i + 1, Alpha(c.fastEmaSpan))
      - TextbookEma(FFill(values), i + 1, Alpha(c.slowEmaSpan)))
    ensures Calculate(c, values).value[i].macdEma
      == Some(TextbookEma(MacdLine(c, FFill(values)), i + 1, Alpha(c.macdEmaSpan)))
  {
    CalculateFailsIff(c, values);
    var ff := FFill(values);
    FFillCompleteIff(values);
    EwmMeanIsTextbookEma(ff, c.fastEmaSpan, c.minPeriods, i);
    EwmMeanIsTextbookEma(ff, c.slowEmaSpan, c.minPeriods, i);
    MacdLineComplete(c, ff);
    EwmMeanIsTextbookEma(MacdLine(c, ff), c.macdEmaSpan, c.minPeriods, i);
  }

  /** The first row of a successful calculation has `macd = macd_ema = 0` and signal 0. */
  lemma CalculateFirstRow(c: Calculator, values: Column)
    requires Calculate(c, values).Success? && values != []
    ensures Calculate(c, values).value[0].macd == Some(0.0)
    ensures Calculate(c, values).value[0].macdEma == Some(0.0)
    ensures Calculate(c, values).value[0].signal == 0
  {
    CalculateFailsIff(c, values);
    CalculateIsTextbookMacd(c, values, 0);
    CalculateSignalIsSign(c, values, 0);
  }

  /** Empty input gives an empty table, whatever the valid options. */
  lemma CalculateEmpty(c: Calculator)
    requires SpansValid(c)
    ensures Calculate(c, []) == Success([])
  {
  }
}
