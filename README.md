# crypto-buy-alert: the buy-signal decision

This project models the decision core of `buy_signal_call_alert.py`: the
function `check_buy_alert`, which receives a frame of recent OHLCV candles,
appends five indicator columns to it in place (three simple moving averages of
the close price with windows 7, 25 and 99, the MACD line `DIF` and the MACD
signal line `DEA`), and then answers whether a buy alert fires. The alert fires
when all five indicators are defined on the last two rows, `DIF` crosses
strictly above `DEA` between the previous and the current row, and both
current values are strictly below the "near zero" threshold 0.002.

Modules:

- `Wrappers`: `Option`. `None` stands for pandas' NaN.
- `IndicatorEngine`: the simple moving average (`SmaAt`, `SmaColumn`), the
  indicator row and the indicator table (`BuildTable`). Also lemmas on the
  average: its bounds, flat prices, sliding the window, locality.
- `SignalEvaluator`: the NaN guard, `Crossover`, `NearZero`, the decision
  `Decide`, and lemmas on strictness, boundaries, warm-up and locality.
- `Frames`: the `Frame` class. It stands for the pandas DataFrame, and
  `AddIndicators` / `CheckBuyAlert` extend it in place.

Modelling choices:

- Prices and indicator values are `real`. Floating-point rounding is not modelled.
- The moving average of row `i` with window `p` is the mean of closes
  `i-p+1 .. i`. It is undefined for `i < p-1`. This matches a rolling mean that
  needs a full window.
- `DIF` and `DEA` come from an indicator library outside this model. They are
  inputs: `Option<real>` columns as long as the frame.
- `df.iloc[-2:]` is the last two rows, or all rows when there are fewer.
  With no rows, the NaN guard finds nothing. Selecting the previous row with
  `df.iloc[-2]` then raises a positional `IndexError`. The same happens with
  one fully defined row. `Decide` returns `IndexError` for these cases.
  `ShortHistoryNoAlert` shows that, on the table the frame builds, only the
  empty frame reaches it. A frame with 1 to 99 candles answers `false`,
  because `ma99` is still undefined.
- The threshold is a parameter of `Decide`. `Frame.CheckBuyAlert` passes the
  configured `ZeroThreshold` (0.002).

Consequences of the code worth stating:

- An undefined indicator in the last two rows answers `false`
  (`Answer(false)`); it is not a separate error.
- prev DIF -0.001 / DEA 0.001, curr DIF 0.0015 / DEA 0.0018 does not fire
  under threshold 0.002, because the crossover needs curr DIF > curr DEA
  (`ExampleDifStillBelowDea`). With the current DIF and DEA swapped it fires
  (`ExampleCrossoverFires`).
- No frame with fewer than 100 candles alerts: with 99 candles ma99 exists
  only on the last row, and the guard also reads the row before it. The
  configured `limit = 100` is exactly the minimum: fewer never alerts
  (`ShortHistoryNoAlert`), and with 100 candles ma99 is defined on both of
  the last two rows (`ConfiguredWindowWarmup`), so the outcome then rests on
  the other indicators and on DIF and DEA.

## Model

| member | source | states |
|---|---|---|
| `IndicatorEngine.SmaColumn` | buy_signal_call_alert.py:62-64 | a moving-average column has one entry per candle and is undefined exactly on the first window-1 rows |
| `IndicatorEngine.SmaWithinWindowBounds` | buy_signal_call_alert.py:62-64 | a defined moving average lies between any lower and upper bound of the closes in its window |
| `IndicatorEngine.SmaOfFlatPrices` | buy_signal_call_alert.py:62-64 | over a window of equal closes, the moving average is that close |
| `IndicatorEngine.SmaSlides` | buy_signal_call_alert.py:62-64 | moving the window one row on changes the average by (entering close - leaving close) / window |
| `IndicatorEngine.SmaIsLocal` | buy_signal_call_alert.py:62-64 | two close series that agree on a row's window give that row the same moving average |
| `IndicatorEngine.BuildTable` | buy_signal_call_alert.py:62-68 | the indicator table has one row per candle; DIF and DEA are carried over unchanged and aligned by index; ma7/ma25/ma99 of row i are the 7/25/99-window moving averages of the closes at row i, defined from rows 6/24/98 on, and not before |
| `Frames.Frame.constructor` | buy_signal_call_alert.py:38 | the frame holds the candles' six fields, one row per candle, in order, with no indicator columns yet |
| `Frames.Frame.AddIndicators` | buy_signal_call_alert.py:62-68 | the five columns are added, or replaced if present; timestamps, prices, volumes and the row count do not change; the frame's table equals `BuildTable` of its closes and the given DIF/DEA |
| `Frames.Frame.CheckBuyAlert` | buy_signal_call_alert.py:61-99 | adds the columns as above and returns `Decide` on the table built from the original closes with threshold 0.002; DIF and DEA stay as given |
| `Frames.CheckTwice` | buy_signal_call_alert.py:61-99 | two evaluations of the same frame with the same MACD columns give the same outcome |
| `SignalEvaluator.Decide` | buy_signal_call_alert.py:70-99 | with at least two rows there is always a boolean answer; the index error occurs exactly when there are fewer than two rows and all of them are defined; true exactly when both last rows are defined, prev DIF < prev DEA, curr DEA < curr DIF < threshold and curr DEA < threshold |
| `SignalEvaluator.UndefinedMeansNoAlert` | buy_signal_call_alert.py:70-72 | an undefined indicator in either of the last two rows gives false |
| `SignalEvaluator.TieIsNoCrossover` | buy_signal_call_alert.py:94 | DIF equal to DEA on the previous or the current row gives false, whatever the other row holds |
| `SignalEvaluator.ThresholdIsExclusive` | buy_signal_call_alert.py:97 | a current DIF or DEA exactly equal to the threshold gives false |
| `SignalEvaluator.AlertSurvivesLowering` | buy_signal_call_alert.py:97 | the near-zero test has no lower bound: lowering the current DIF and DEA together by any amount keeps a true answer true |
| `SignalEvaluator.OnlyLastTwoRowsMatter` | buy_signal_call_alert.py:70-78 | two tables of one length that agree on their last two rows get the same outcome |
| `SignalEvaluator.DecisionReadsLastHundredCloses` | buy_signal_call_alert.py:62-78 | on built tables with DIF/DEA held fixed on the last two rows, the outcome depends only on the closes of the last 100 candles |
| `SignalEvaluator.ShortHistoryNoAlert` | buy_signal_call_alert.py:62-72 | with at most 99 candles there is never an alert: an empty frame gives the index error, any other gives false |
| `SignalEvaluator.ConfiguredWindowWarmup` | buy_signal_call_alert.py:64 | with the configured 100 candles, ma99 is defined on exactly the last two rows |
| `SignalEvaluator.ExampleCrossoverFires` | buy_signal_call_alert.py:93-99 | prev DIF -0.001 < DEA 0.001, curr DIF 0.0018 > DEA 0.0015, both below 0.002: fires |
| `SignalEvaluator.ExampleDifStillBelowDea` | buy_signal_call_alert.py:94 | curr DIF 0.0015 below curr DEA 0.0018 is no crossover: does not fire |
| `SignalEvaluator.ExampleThresholdTooLow` | buy_signal_call_alert.py:97 | the firing example does not fire under threshold 0.001 |

## Left out

- `fetch_data` (buy_signal_call_alert.py:36-40) and the exchange handle (line 33) are network I/O. `Frames.Frame.constructor` takes the candles as a parameter. Timestamps stay integer milliseconds; the conversion to datetimes is not modelled.
- `make_call_alert` (buy_signal_call_alert.py:43-58) is an external telephony call with a credential check and exception logging. It is not modelled.
- The UTC-to-IST conversion and the console output (buy_signal_call_alert.py:80-91), and the top-level script (lines 101-108), are presentation only. They do not affect the decision.
- The MACD computation of the indicator library (exponential moving averages, their seeding and default periods) is not visible. DIF and DEA are inputs, so properties that depend on their values over a whole price history are not stated. An example is a steadily rising series never firing. A series flat up to the previous candle does not fire: an exponential average of a constant is that constant, so DIF = DEA = 0 on the previous row, and the strict crossover fails there (`TieIsNoCrossover`); the model does not derive DIF = DEA = 0 itself, since DIF and DEA are inputs.
- Floating-point arithmetic: averages and comparisons are over exact reals. NaN is `None` rather than a value. A NaN close price, which would make the rolling means NaN, is not modelled.
- The string-timestamp branch at line 82 is not modelled. It only affects the printed time.
