# tifft indicators in Dafny

This project models the computational core of `tifft`, a small command-line
tool that fetches financial time series and computes three technical
indicators on them:

- **Bollinger Bands.** A rolling mean of the forward-filled prices, bands a
  whole number of rolling sample standard deviations above and below it, and
  an integer signal: how many deviations the price lies from the mean.
- **MACD.** The difference between a fast and a slow exponential moving
  average (pandas `ewm(span, adjust=False)`), an EMA of that difference, and
  a signal that records which side of its EMA the MACD line is on.
- **RSI.** The rolling mean of upward price changes divided by the rolling
  mean of downward changes, the RSI `100 - 100 / (1 + rs)`, and an
  overbought/oversold signal against two thresholds.
- **The data reader's pure logic.** Dispatch on the indicator name; choosing
  the indicator's parameters and converting them with `int()`; running the
  calculator on the first column of the fetched table; upper-casing the
  column names; the `KEY NAME:\tvalue` lines it prints; the dataset name
  passed to the fetcher; the heading it prints; and the `display.max_rows`
  setting.

The modules follow the program's files:

- `Series` holds the pandas behaviour the indicators share. That is forward
  fill, rolling windows (with `center` and `min_periods`), and rolling mean
  and sample standard deviation.
- `BollingerBands`, `Macd` and `Rsi` model the three calculators.
- `DataReader` models the orchestration.
- `Wrappers` holds `Option` and `Result`.

Modelling conventions:

- A pandas column of floats is a `seq<Option<real>>`, where `None` stands
  for NaN.
- Floating point is modelled as exact real arithmetic.
- There is no square root in the language. The standard deviation therefore
  takes the square root as a parameter `root: real -> real`. Lemmas that need
  it assume `IsSquareRoot(root)`, meaning `root(x) >= 0` and
  `root(x)^2 == x` for every `x >= 0`.
- Every error the source raises is a `Failure` carrying the reason. A
  pandas `ValueError` for bad rolling options, `KeyError` for a missing
  parameter, `ValueError` from `int()` and `IndexError` each have one.

Where the code and its documentation disagree, the model follows the code:

- **MACD signal.** The docstring of `MacdCalculator.calculate`
  (tifft/macd.py:69-70) promises signals 2 and −2 for strong moves. In the
  mask chain at tifft/macd.py:93-98, every row masked to ±2 is masked again
  to ±1 by the next, wider mask. The signal is therefore just the sign of
  `macd - macd_ema`. `Macd.MaskChainIsSign` proves that ±2 never survives.
- **MACD with a leading missing value, or `min_periods > 1`.** The first
  `macd_ema_delta` is then NaN, and `.astype(int)` on NaN raises. So
  `Calculate` fails on any non-empty input whose first value is missing, or
  whose `min_periods` exceeds 1 (`Macd.CalculateFailsIff`). This includes
  the input of the source test `test_custom_ewm_kwargs`
  (tests/test_macd.py:171-179).

## Model

Where a function's own contract gives only the shape of its result, its row
says so and names the lemmas that state its entries. `Macd.Mask`, one
`Series.mask` call, has no contract of its own: it is covered by the rows of
`Macd.MaskChain` and `Macd.MaskChainIsSign`, which apply it four times.

| member | source | states |
|---|---|---|
| Series.Sub | tifft/macd.py:80-92 | a difference of two entries is present iff both are, and adds back to the minuend |
| Series.FFill | tifft/bollingerbands.py:72 | forward fill gives one entry per input; which value each filled entry takes is stated by `FFillIsLastObservation` and `FFillMissingIff` |
| Series.FFillMissingIff | tifft/bollingerbands.py:72 | after `ffill` an entry is missing iff every entry up to it is missing |
| Series.FFillIsLastObservation | tifft/bollingerbands.py:72 | a filled entry equals the most recent observed entry at or before it |
| Series.FFillGapFree | tifft/bollingerbands.py:72 | after `ffill` no missing entry follows a present one |
| Series.FilledStaysFilled | tifft/bollingerbands.py:72 | once an observation has been seen, every later position has a last observation |
| Series.FFillIdempotent | tifft/bollingerbands.py:72 | filling twice equals filling once |
| Series.RefillAt | tifft/bollingerbands.py:72 | the last observation of the filled column at each position is that filled entry |
| Series.FFillCompleteIff | tifft/macd.py:78 | the filled column has no gap iff the input is empty or its first entry is present |
| Series.CompleteFFill | tifft/macd.py:78 | filling a column without gaps changes nothing |
| Series.SumSquaredDeviationsZero | tifft/bollingerbands.py:77-79 | the squared deviations sum to zero iff every value equals the centre |
| Series.SampleVarianceNonNegative | tifft/bollingerbands.py:77-79 | the sample variance is never negative |
| Series.SampleVarianceZeroIff | tifft/bollingerbands.py:77-79 | the sample variance is zero iff all values equal their mean |
| Series.MeanConstant | tifft/bollingerbands.py:74-76 | the mean of equal values is that value |
| Series.MeanNonNegative | tifft/rsi.py:78-83 | the mean of non-negative values is non-negative |
| Series.ObservedComplete | tifft/bollingerbands.py:74-79 | the observations of a gapless column are its values in order |
| Series.ObservedContains | tifft/bollingerbands.py:74-79 | every present entry is among the observations |
| Series.ObservedAllSatisfy | tifft/rsi.py:78-83 | a lower bound on all present entries bounds every observation |
| Series.ObservedAllPositive | tifft/rsi.py:78-83 | when all present entries are positive, so is every observation |
| Series.ObservedAllEqual | tifft/bollingerbands.py:74-79 | when all present entries equal c, so does every observation |
| Series.ObservedSamePattern | tifft/rsi.py:78-83 | two columns with the same missing entries have equally many observations |
| Series.ObservedEmpty | tifft/bollingerbands.py:74-79 | a column with nothing present has no observations |
| Series.RollingCheck | tifft/bollingerbands.py:48 | the rolling options are accepted iff the window is non-negative and any `min_periods` lies in 0..window; a negative `min_periods` is reported first, then one above the window, and a negative window only when `min_periods` passes both checks |
| Series.Window | tifft/bollingerbands.py:75 | a window holds at most `window` entries |
| Series.WindowHoldsPosition | tifft/bollingerbands.py:75 | every position lies inside its own window |
| Series.CentredWindow | tifft/bollingerbands.py:75 | with `center` the window reaches `(window − 1) // 2` entries past the position and `window // 2` before it, cut at both ends |
| Series.TrailingWindow | tifft/bollingerbands.py:75 | without `center` the window is the `window` entries ending at the position, cut at the start |
| Series.RollingMean | tifft/bollingerbands.py:74-76 | one mean per row; when it is present and what it is is stated by `RollingMeanAt` |
| Series.RollingStd | tifft/bollingerbands.py:77-79 | one deviation per row; when it is present and what it is is stated by `RollingStdAt` |
| Series.RollingMeanAt | tifft/bollingerbands.py:74-76 | the rolling mean is present iff the window holds at least `min_periods` observations and at least one; it is then their mean |
| Series.RollingVariance | tifft/bollingerbands.py:77-79 | one variance per row; its presence and value, through the std built on it, are stated by `RollingStdAt` |
| Series.RollingStdAt | tifft/bollingerbands.py:77-79 | the rolling std is present iff the window holds at least `min_periods` observations and at least two; it is then the non-negative root of their sample variance |
| Series.RollingStdWithMean | tifft/bollingerbands.py:74-79 | wherever the rolling std is present, the rolling mean is too, and the std is non-negative |
| Series.RollingStdZero | tifft/bollingerbands.py:77-79 | a zero rolling std means every observation in the window equals the rolling mean |
| Series.RollingStdConstant | tifft/bollingerbands.py:77-79 | on a constant window the std is 0 and the mean is the constant |
| Series.FullWindowPresent | tifft/bollingerbands.py:74-79 | with the default `min_periods` and a trailing window, `window` present entries give a mean, and a deviation once the window is at least 2 |
| Series.RollingMeanWarmUp | tifft/bollingerbands.py:74-76 | with the default `min_periods` on a gapless column, the mean is missing for the first window−1 rows and is then the mean of the trailing window |
| Series.RollingMeanMinPeriods | tifft/bollingerbands.py:48 | with `min_periods` m on a gapless column, the mean is present from row m−1 on |
| Series.RollingMeanNonNegative | tifft/rsi.py:78-83 | the rolling mean of a non-negative column is non-negative |
| Series.RollingMeanPositive | tifft/rsi.py:78-83 | the rolling mean of a positive column is positive |
| Series.RollingMeanConstant | tifft/bollingerbands.py:74-76 | the rolling mean of a constant column is the constant |
| Series.RollingMeanSamePattern | tifft/rsi.py:78-83 | two columns with the same missing entries have rolling means present at the same rows |
| BollingerBands.NewCalculator | tifft/bollingerbands.py:33-48 | the calculator keeps the multiplier and puts the window size and the extra options into the rolling options |
| BollingerBands.DefaultCalculator | tifft/bollingerbands.py:35-36 | the defaults are window 20 and multiplier 2 |
| BollingerBands.Ceil | tifft/bollingerbands.py:92 | `np.ceil` is the least integer not below x |
| BollingerBands.RoundHalfEven | tifft/bollingerbands.py:93-94 | `round` lies within one half of x |
| BollingerBands.RoundHalfEvenNearest | tifft/bollingerbands.py:93-94 | `round` gives a nearest integer, and the even one on a tie |
| BollingerBands.RoundHalfEvenUnique | tifft/bollingerbands.py:93-94 | an integer within less than half of x is `round(x)` |
| BollingerBands.Signal | tifft/bollingerbands.py:89-95 | the signal never has the opposite sign of the residual |
| BollingerBands.SignalNearWhole | tifft/bollingerbands.py:93-94 | a residual within the tolerance of an integer gives that integer |
| BollingerBands.SignalTruncates | tifft/bollingerbands.py:92 | otherwise a positive residual is floored and a non-positive one is ceiled: truncation toward zero, never growing in magnitude |
| BollingerBands.SignalWithinOne | tifft/bollingerbands.py:89-95 | the signal is always less than one away from the residual |
| BollingerBands.Lower | tifft/bollingerbands.py:82 | the lower band is present iff mean and std are, and lies multiplier×std below the mean |
| BollingerBands.Upper | tifft/bollingerbands.py:83 | the upper band is present iff mean and std are, and lies multiplier×std above the mean |
| BollingerBands.ResidualOf | tifft/bollingerbands.py:84 | the residual is finite iff all three inputs are present and std ≠ 0, and then it solves mean + r×std = value; it is infinite iff std is 0 and value ≠ mean |
| BollingerBands.SignalOf | tifft/bollingerbands.py:89-95 | a NaN residual gives signal 0, and a finite one a signal less than one away from it |
| BollingerBands.Calculate | tifft/bollingerbands.py:66-100 | bad rolling options fail with the reason; on success there is one row per input, holding the input value; the other columns are stated by `CalculateColumns` (mean, std, bands, residual, signal per row) and `BandsEncloseMean` |
| BollingerBands.FlatWindowAtMean | tifft/bollingerbands.py:77-84 | where the std is 0 the filled price equals the mean, so the residual is never infinite |
| BollingerBands.CalculateFailsOnlyOnBadOptions | tifft/bollingerbands.py:66-100 | with a true square root, `calculate` fails iff the rolling options are rejected |
| BollingerBands.BandsEncloseMean | tifft/bollingerbands.py:82-83 | bands are present with the std, lie around the mean, and are 2×multiplier×std apart |
| BollingerBands.BandsOf | tifft/bollingerbands.py:82-83 | bands built from a present mean and a non-negative std are present with the std, enclose the mean and are 2×multiplier×std apart |
| BollingerBands.BandsAround | tifft/bollingerbands.py:82-83 | for any non-negative std and multiplier the bands enclose the mean |
| BollingerBands.WiderWithLargerMultiplier | tifft/bollingerbands.py:82-83 | a larger multiplier gives strictly wider bands when std > 0 |
| BollingerBands.WiderAcrossCalculations | tifft/bollingerbands.py:74-83 | two calculations that differ only in a larger multiplier share mean and std, and give strictly wider bands where the std is positive |
| BollingerBands.ZeroDeviationCollapses | tifft/bollingerbands.py:82-95 | where the std is 0 both bands equal the mean and the signal is 0 |
| BollingerBands.ConstantPrices | tifft/bollingerbands.py:72-95 | on constant prices the signal is 0, and wherever the std is present it is 0 and the mean and both bands equal the price; with a trailing window of at least 2 and the default `min_periods` the std is present, and 0, from row window−1 on |
| BollingerBands.WarmUpRows | tifft/bollingerbands.py:74-95 | before a full window, mean, std and bands are missing and the signal is 0 |
| BollingerBands.SingleValue | tifft/bollingerbands.py:66-100 | one value with the defaults gives one row with only the value present |
| BollingerBands.MovingAverageExample | tifft/bollingerbands.py:74-76 | window 3 over 10..50 gives missing, missing, 20, 30 |
| BollingerBands.SignalExamples | tifft/bollingerbands.py:89-95 | examples of truncation and near-whole rounding |
| Macd.NewCalculator | tifft/macd.py:30-55 | the constructor fails iff the fast span is not below the slow span, and otherwise keeps the three spans and `min_periods` |
| Macd.DefaultCalculator | tifft/macd.py:32-34 | the defaults are 12, 26 and 9 |
| Macd.Alpha | tifft/macd.py:81 | the smoothing factor 2/(span+1) lies in (0, 1] for span ≥ 1 |
| Macd.EwmStep | tifft/macd.py:81-84 | one step of the `adjust=False` EWM counts the observation, is defined once anything was observed, and resets the old weight to 1 on an observation |
| Macd.EwmFold | tifft/macd.py:81-84 | after any prefix the old weight lies in [0, 1] and the average is defined iff something was observed |
| Macd.EwmMean | tifft/macd.py:81-84 | one EWM entry per row; its presence is stated by `EwmMeanPresentIff` and its value by `EwmMeanIsTextbookEma` |
| Macd.EwmCountsObservations | tifft/macd.py:81-84 | the EWM's observation count is the number of present entries in the prefix |
| Macd.EwmWeightedIffObserved | tifft/macd.py:81-84 | the average is defined iff some entry of the prefix is present |
| Macd.EwmObservationResetsWeight | tifft/macd.py:81-84 | right after an observation the old weight is 1 |
| Macd.EwmRecurrence | tifft/macd.py:81-84 | between two consecutive observations, the EWM moves by the textbook recurrence `α·x + (1−α)·prev` |
| Macd.EwmIsTextbookEma | tifft/macd.py:81-84 | on a gapless column the EWM is the textbook EMA seeded with the first value |
| Macd.EwmFirstObservation | tifft/macd.py:81-84 | at the first observation the EWM equals that observation |
| Macd.EwmWithinBounds | tifft/macd.py:81-84 | the EWM stays within any bounds of the observations |
| Macd.EwmConstant | tifft/macd.py:81-84 | the EWM of a constant column is the constant |
| Macd.Truncate | tifft/macd.py:99 | `astype(int)` truncates toward zero |
| Macd.MaskChain | tifft/macd.py:93-98 | the mask chain leaves a missing delta missing and otherwise yields −1, 0 or 1 |
| Macd.MaskChainIsSign | tifft/macd.py:93-99 | the mask chain produces the sign of the delta and never 2 or −2 |
| Macd.Calculate | tifft/macd.py:72-102 | the first span below 1, in the order fast, slow, signal, fails with that span; on success there is one row per input holding the input value; the other columns are stated by `CalculateIsTextbookMacd` and `CalculateSignalIsSign` |
| Macd.EwmMeanPresentIff | tifft/macd.py:81-84 | the EWM mean is present iff the prefix holds at least max(min_periods, 1) observations |
| Macd.EwmMeanWarmUp | tifft/macd.py:81-84 | rows before `min_periods` observations are missing |
| Macd.EwmMeanIsTextbookEma | tifft/macd.py:81-84 | on a gapless column with `min_periods` ≤ 1 the EWM mean is the textbook EMA |
| Macd.EwmMeanComplete | tifft/macd.py:81-84 | on a gapless column with `min_periods` ≤ 1 the EWM mean has no gaps |
| Macd.EwmMeanFirst | tifft/macd.py:81-84 | with `min_periods` ≤ 1 the first EWM value is the first input |
| Macd.EwmMeanFirstMissing | tifft/macd.py:81-84 | a missing first input gives a missing first EWM value |
| Macd.FirstSignalMissing | tifft/macd.py:92 | `min_periods` > 1 leaves the first delta missing |
| Macd.MacdLine | tifft/macd.py:80-85 | one MACD entry per row; `MacdLineComplete` and `CalculateIsTextbookMacd` state its entries |
| Macd.SignalLine | tifft/macd.py:92-98 | a masked signal is present iff the MACD and its EMA both are |
| Macd.MacdLineComplete | tifft/macd.py:80-85 | on a gapless filled column the MACD line has no gaps |
| Macd.SignalLineComplete | tifft/macd.py:88-92 | then the delta column has no gaps either |
| Macd.CalculateFailsIff | tifft/macd.py:72-102 | `calculate` fails iff a span is below 1, or the input is non-empty and starts with a missing value or `min_periods` > 1; the error is the first bad span, else the missing signal |
| Macd.CalculateSignalIsSign | tifft/macd.py:92-99 | on success every row's MACD and its EMA are present, and the signal is the sign of their difference |
| Macd.CalculateIsTextbookMacd | tifft/macd.py:78-91 | on success the MACD is the fast minus the slow textbook EMA of the filled prices, and its EMA is the textbook EMA of the MACD line |
| Macd.CalculateFirstRow | tifft/macd.py:80-99 | the first row has MACD 0, EMA 0 and signal 0 |
| Macd.CalculateEmpty | tifft/macd.py:72-102 | valid spans on an empty input give an empty table |
| Rsi.NewCalculator | tifft/rsi.py:33-51 | the calculator keeps the two lines and puts the window size and the extra options into the rolling options |
| Rsi.DefaultCalculator | tifft/rsi.py:35-37 | the defaults are window 14, upper line 70 and lower line 30 |
| Rsi.Diff | tifft/rsi.py:73 | one difference per row; `DiffAt` states each entry |
| Rsi.DiffAt | tifft/rsi.py:73 | the first difference is missing; later ones are present iff both neighbours are, and are their difference |
| Rsi.DiffConstant | tifft/rsi.py:73 | a constant column has zero differences |
| Rsi.DiffRising | tifft/rsi.py:73 | a strictly rising column has positive differences |
| Rsi.DiffFalling | tifft/rsi.py:73 | a strictly falling column has negative differences |
| Rsi.GainLossSplit | tifft/rsi.py:74-77 | upward and downward parts are present with the difference, non-negative, at least one is 0, and up − down is the difference |
| Rsi.Upward | tifft/rsi.py:75 | the gain is present with the difference, never negative, and equal to a non-negative difference |
| Rsi.Downward | tifft/rsi.py:76 | the loss is present with the difference, never negative, and the negation of a non-positive difference |
| Rsi.Gains | tifft/rsi.py:75 | the gains are present with the differences and never negative |
| Rsi.Losses | tifft/rsi.py:76 | the losses are present with the differences and never negative |
| Rsi.LossesOfFall | tifft/rsi.py:74-77 | negative differences give positive losses and zero gains |
| Rsi.RelativeStrength | tifft/rsi.py:78-83 | the ratio is present only when both averages are, and is never negative |
| Rsi.RsiOf | tifft/rsi.py:84 | the RSI is present iff the relative strength is |
| Rsi.RsiRange | tifft/rsi.py:84 | the RSI lies in 0..100 |
| Rsi.RsiIdentity | tifft/rsi.py:78-84 | with a positive average loss, RSI = 100·gain/(gain+loss) |
| Rsi.RsiNoLosses | tifft/rsi.py:78-84 | gains without losses give an unbounded ratio and RSI 100; the source divides by a negative zero there, so it most likely shows rs as `-inf` |
| Rsi.RsiNoGains | tifft/rsi.py:78-84 | losses without gains give RSI 0 |
| Rsi.SignalOf | tifft/rsi.py:85-91 | the signal is −1, 0 or 1, and 0 when the RSI is missing |
| Rsi.SignalClassification | tifft/rsi.py:85-91 | the signal is 1 iff RSI is above the upper line, −1 iff it is not above it but below the lower line, and 0 iff RSI is missing or within the lines |
| Rsi.AverageGain | tifft/rsi.py:78-83 | the rolling mean of the gains keeps the length and is never negative |
| Rsi.AverageLoss | tifft/rsi.py:78-83 | the rolling mean of the losses keeps the length and is never negative |
| Rsi.Calculate | tifft/rsi.py:54-93 | `calculate` fails iff the rolling options are rejected, with that reason; on success there is one row per input holding the input value; the other columns are stated by `CalculateRsi` |
| Rsi.CalculateRsi | tifft/rsi.py:78-84 | RSI is present iff both averages are and one is positive; it then lies in 0..100, is 100·g/(g+l) when losses are positive and 100 when only gains occur (rs is then unbounded, most likely `-inf` in the source) |
| Rsi.RsiOfAverages | tifft/rsi.py:78-84 | the same statement for any two non-negative averages |
| Rsi.AveragesPresentTogether | tifft/rsi.py:78-83 | the average gain and the average loss are present at the same rows |
| Rsi.AveragesAfterWarmUp | tifft/rsi.py:73-83 | on complete prices with a trailing window and the default `min_periods`, both averages are present from row window on |
| Rsi.CalculateSingleValue | tifft/rsi.py:54-93 | a single value gives one row with no rs, no rsi and signal 0 |
| Rsi.CalculateFirstRow | tifft/rsi.py:73-91 | with a trailing window the first row has no rs and no rsi, and signal 0 |
| Rsi.CalculateConstant | tifft/rsi.py:73-91 | a constant column gives no RSI and signal 0 everywhere |
| Rsi.ConstantAverages | tifft/rsi.py:73-83 | on constant prices the average gain and loss are 0 wherever present |
| Rsi.CalculateRising | tifft/rsi.py:73-84 | on strictly rising prices every present RSI is 100; with a trailing window and the default `min_periods` it is present, and 100, from row window on |
| Rsi.RisingAverages | tifft/rsi.py:73-83 | on strictly rising prices the average gain is positive and the average loss 0 wherever present |
| Rsi.CalculateFalling | tifft/rsi.py:73-84 | on strictly falling prices every present RSI is 0; with a trailing window and the default `min_periods` it is present, and 0, from row window on |
| Rsi.FallingAverages | tifft/rsi.py:73-83 | on strictly falling prices the average gain is 0 and the average loss positive wherever present |
| Rsi.RelativeStrengthExample | tifft/rsi.py:78-83 | window 3 over 100, 102, 101, 103 gives rs 4 at the last row |
| Rsi.ExampleGainsAndLosses | tifft/rsi.py:73-77 | the gains and losses of that example |
| Rsi.ExampleAverage | tifft/rsi.py:78-83 | a window of three present values has their arithmetic mean |
| DataReader.ParseIndicator | tifft/datareader.py:138-157 | a recognised name selects the indicator that carries that name; any other fails with `invalid indicator: <name>` |
| DataReader.ParseIndicatorIff | tifft/datareader.py:138-157 | exactly `macd`, `bb` and `rsi` are accepted, and each indicator's name selects it |
| DataReader.ParamKeys | tifft/datareader.py:140-153 | MACD and RSI take three distinct keys, Bollinger Bands two |
| DataReader.ParseInt | tifft/datareader.py:141 | `int()` accepts a text iff it is digits, or a sign followed by digits |
| DataReader.IntToString | tifft/datareader.py:179 | `str()` of an integer is never empty; that it reads back as the integer is `ParseIntToString` |
| DataReader.ParseIntToString | tifft/datareader.py:141 | `int(str(n)) == n` for every integer |
| DataReader.ParseIntExamples | tifft/datareader.py:141 | signs and digits are accepted; the empty text, a bare sign and a decimal point are not |
| DataReader.SelectParams | tifft/datareader.py:140-153 | on success there is one parameter per key; a failure names a key that is missing, or one that is given but whose text is not an integer |
| DataReader.SelectParamsValues | tifft/datareader.py:140-153 | on success the parameters are the keys in order, each with the integer its text denotes |
| DataReader.SelectParamsSucceedsIff | tifft/datareader.py:140-153 | selection succeeds iff every key is given and reads as an integer |
| DataReader.Upper | tifft/datareader.py:162 | upper-casing keeps the length, turns each ASCII lower-case letter into the upper-case letter at the same place in the alphabet, and keeps every other character |
| DataReader.UpperCharMapsLetter | tifft/datareader.py:162 | a lower-case ASCII letter becomes the upper-case letter at its place in `A`–`Z` |
| DataReader.Label | tifft/datareader.py:179 | a label is the upper-cased key with underscores as spaces (so no underscore is left), then `:\t`, then text that reads back as the value |
| DataReader.UpperProperties | tifft/datareader.py:162 | upper-casing turns each lower-case letter into its upper-case counterpart, leaves no lower-case ASCII letter, changes nothing else, and is idempotent |
| DataReader.KeyValueLines | tifft/datareader.py:178-179 | one printed line per parameter; what each line holds is stated by `Label`, and the loop is `PrintKeyValues` |
| DataReader.PrintKeyValues | tifft/datareader.py:172-179 | the loop collects one label per parameter, in order |
| DataReader.KeyValueLinesExample | tifft/datareader.py:179 | spans 12 and 26 print `FAST EMA SPAN:\t12` and `SLOW EMA SPAN:\t26` |
| DataReader.UpperColumns | tifft/datareader.py:162 | the rename upper-cases every column name and keeps the order |
| DataReader.UpperColumnsOfCalculators | tifft/datareader.py:159-163 | the renamed columns of the three calculators |
| DataReader.FetchName | tifft/datareader.py:49-51 | one name, or any name for `fred` and `iex`, passes unchanged; otherwise the first of the list is fetched, and an empty list fails |
| DataReader.JoinLength | tifft/datareader.py:59 | the join is as long as its elements plus one separator between each two |
| DataReader.JoinElementAt | tifft/datareader.py:59 | element `i` sits in the join at the total length of the elements before it plus one separator per element before it, and the last element ends the join |
| DataReader.JoinSeparatorAt | tifft/datareader.py:59 | the separator sits between each element and the next, filling exactly the gap up to where the next element starts |
| DataReader.JoinContents | tifft/datareader.py:59 | the join is exactly its elements at their offsets, with one separator between each two and nothing after the last (`LaidOut`) |
| DataReader.JoinStartsWithFirst | tifft/datareader.py:59 | the join begins with the first element |
| DataReader.Heading | tifft/datareader.py:59 | the heading is `>>\tPrint results:\t` followed by the one name, or by every name of the list in order with `, ` between each two and nothing after the last |
| DataReader.HeadingExample | tifft/datareader.py:59 | the heading for `SPY` and `QQQ` ends in `SPY, QQQ` |
| DataReader.MaxRows | tifft/datareader.py:60 | no limit iff the argument is absent, empty or 0; a failure iff a non-empty text is not an integer; otherwise the integer given |
| DataReader.MaxRowsExample | tifft/datareader.py:60 | the text `10` sets 10 rows |
| DataReader.DropNa | tifft/datareader.py:136 | `dropna` keeps at most the given rows, and every row kept is complete |
| DataReader.Prepared | tifft/datareader.py:136 | the optional `dropna` step keeps the frame well formed with its column count; which rows remain is stated by `DropNa` and `DropNaKeepsComplete` |
| DataReader.DropNaKeepsComplete | tifft/datareader.py:136 | `dropna` keeps exactly the rows without a missing entry |
| DataReader.DropNaIdempotent | tifft/datareader.py:136 | dropping twice equals dropping once |
| DataReader.FirstColumn | tifft/datareader.py:161 | `iloc[:, 0]` fails iff the table has no column, and is otherwise each row's first entry |
| DataReader.RunMacd | tifft/datareader.py:159-163 | running MACD fails in construction iff the fast span is not below the slow one, otherwise only for want of a column or in the calculation; success carries the upper-cased MACD columns |
| DataReader.RunBollingerBands | tifft/datareader.py:159-163 | running Bollinger Bands fails only for want of a column or in the calculation; success carries the upper-cased columns |
| DataReader.RunRsi | tifft/datareader.py:159-163 | running RSI fails only for want of a column or in the calculation; success carries the upper-cased columns |
| DataReader.CalculateIndicator | tifft/datareader.py:136-163 | an invalid indicator fails with the message naming it |
| DataReader.CalculateIndicatorInvalid | tifft/datareader.py:155-157 | any name but the three fails with `invalid indicator: <name>` |
| DataReader.CalculateIndicatorNeedsParams | tifft/datareader.py:140-153 | a missing or non-integer parameter fails with a key error or an integer error |
| DataReader.CalculateIndicatorMacd | tifft/datareader.py:138-163 | on success for `macd` the rows are the MACD calculator's on the first column, built from the three given spans, and the columns are upper-cased |
| DataReader.CalculateIndicatorBollingerBands | tifft/datareader.py:145-163 | on success for `bb` the rows are the Bollinger calculator's on the first column with the given window and multiplier, and the columns are upper-cased |
| DataReader.CalculateIndicatorRsi | tifft/datareader.py:149-163 | on success for `rsi` the rows are the RSI calculator's on the first column with the given window and lines, and the columns are upper-cased |
| DataReader.CalculateIndicatorMacdSpans | tifft/datareader.py:140-144 | a fast span not below the slow one fails with the calculator's error |
| DataReader.CalculateIndicatorNoColumns | tifft/datareader.py:161 | a table without columns fails at `iloc[:, 0]` |

## Left out

- Fetching data (`pandas_datareader`), printing, logging, `pd.set_option`,
  writing CSV files and the command-line parser (tifft/cli.py) are I/O.
  The model keeps only the values they consume or produce: the name passed
  on, the heading and label texts, and the row cap.
- `Series` floating point: IEEE rounding, signed zeros and overflow are
  replaced by exact reals. Square root is a parameter. One visible effect:
  the zero losses of tifft/rsi.py:76 are negative zeros, so a window of
  gains only most likely gives rs `-inf` where the model has `Unbounded`;
  the RSI is 100 either way.
- `BollingerBands.Calculate`: an infinite residual can only arise from
  rounding, so in the exact model `InfiniteResidual` is unreachable once
  `root` is a square root (`CalculateFailsOnlyOnBadOptions`).
- Rolling options other than `center` and `min_periods` (`win_type`,
  `closed`, `step`, offset windows) are not modelled. Nor are EWM options
  other than `min_periods`, including a caller's `adjust` override and
  `ignore_na`.
- Input types: the calculators accept a pandas Series or a list. Both are
  modelled as one column of optional reals, and the model does not track
  integer dtypes.
- `fillna(method="ffill")` (tifft/macd.py:78, tifft/rsi.py:73) is modelled
  as `ffill`. Its deprecation warning is not modelled.
- `DataReader.SelectParams`: the indicator parameters are typed `Any`
  (tifft/datareader.py:107), so `int()` also receives Python numbers, and
  it truncates a float (`int(2.7) == 2`). The model takes only text values,
  as the command line passes them.
- `DataReader.ParseInt`: Python's `int()` also accepts surrounding
  whitespace, underscores between digits and non-ASCII digits. The model
  accepts only an optional sign followed by ASCII digits.
- `DataReader.MaxRows`: `pd.set_option("display.max_rows", n)` rejects a
  negative `n` with a `ValueError`. `pd.set_option` is not modelled, so the
  model returns `n` for a negative integer text.
- `DataReader.Upper`: `str.upper` maps non-ASCII letters too. The model
  upper-cases ASCII letters only.
- `DataReader.CalculateIndicator`: the source fetches the data before it
  checks the indicator name. The fetch is not modelled, so neither is its
  failure.
- `Rsi.RelativeStrength` requires non-negative averages. The averages of
  gains and losses always are (`Rsi.AverageGain`, `Rsi.AverageLoss`).
- tifft/__init__.py and setup.py hold only packaging and are not part of
  this model.
