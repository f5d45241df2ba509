# Index-page series preparation and interval selection

This project models the two pieces of logic behind the dashboard's index page.

1. **Series preparation** (`helper.py`, `prepare_index_page_data`). A table is
   downloaded for the tickers `TRY=X`, `XU100.IS`, `GC=F` and `BTC-USD`. The
   pipeline then runs these stages:
   - it fails when the table has no rows;
   - it narrows the table to one price field;
   - for the interval tags `"1h"` and `"15T"` it floors every timestamp to the
     hour or to the quarter hour and averages rows with the same floored
     timestamp;
   - it drops every row with a missing cell, and fails when none is left;
   - it adds gold and bitcoin priced in lira (each multiplied by the dollar-lira rate);
   - it divides every column by its first value;
   - it emits the rendered timestamps and the four series under the display
     names `USD`, `BIST`, `GOLD` and `BTC`.
2. **The index handler** (`app.py`, `index`). The handler reads the range from
   the query (`fDiti`, `tDiti`) or uses the default range. The span in hours
   picks the download interval: `"1d"` above 192 hours, `"1h"` above 48 hours,
   `"15m"` otherwise. A quarter of the span, truncated toward zero, is the step
   of the pan and zoom links.

Timestamps are integer epoch seconds. Prices are exact `real`s. A missing
cell (pandas `NaN`) is a key absent from a row's map, or `None` once the four
columns are selected. Errors are a `Result`: `NoData(from, to)` carries the
requested range, and `MissingColumn(key)` is the lookup error of selecting a
column the table lacks.

Modules: `Wrappers` (`Option`, `Result`), `SeriesPrep` (helper.py) and
`IndexView` (app.py). Each pipeline stage is a function over a sequence of
rows, one per rebinding of `data` in the source. The source has no loop of
its own, since pandas does the work, so the model has none either.

The source disagrees with itself on one point, and the model keeps it as
written. The handler asks for `"15m"` data for spans of at most 48 hours
(app.py:45). The preparation resamples only the tag `"15T"` (helper.py:49).
So 15-minute data keeps the provider's own timestamps, and
`IndexView.ShortSpansAreNotResampled` states this. The step size is
`int(diff / 4)`, which truncates toward zero. For negative spans that are not
multiples of four it is not the floor of the quotient (`IndexView.StepSizeAboveFloorForNegativeSpans`).

## Model

| member | source | states |
|---|---|---|
| `SeriesPrep.NoDataMessage` | helper.py:35 | the error text contains the requested start and end at fixed places, so the error page names both endpoints; nothing else in the model uses the text, since the error page only shows it |
| `SeriesPrep.SelectColumns` | helper.py:37-44 | fails, with a key the table lacks, exactly when one of the four (field, symbol) columns is absent; otherwise keeps every row and timestamp, and each cell is that row's (field, symbol) cell |
| `SeriesPrep.BucketSeconds` | helper.py:46-51 | only `"1h"` (3600 s) and `"15T"` (900 s) have a bucket; every other tag has none |
| `SeriesPrep.ResampleFor` | helper.py:46-51 | a tag without a bucket, such as `"1d"` or `"15m"`, leaves the rows unchanged; a tag with a bucket resamples them to it |
| `SeriesPrep.FloorTo` | helper.py:47 | the floored timestamp is a multiple of the bucket, at most the timestamp and less than one bucket below it |
| `SeriesPrep.FloorOfMultiple` | helper.py:50 | flooring a timestamp that is already a multiple of the bucket leaves it unchanged |
| `SeriesPrep.Insert` | helper.py:48 | adding a key to an ascending list of distinct keys keeps it ascending and distinct, and adds exactly that key |
| `SeriesPrep.BucketKeys` | helper.py:48 | the group keys are ascending and distinct, no more than the rows, and are exactly the floored timestamps of the rows |
| `SeriesPrep.Group` | helper.py:48 | a group holds exactly the rows whose floored timestamp is its key, and no more rows than the input |
| `SeriesPrep.GroupAppend` | helper.py:48 | grouping the concatenation of two tables is grouping each and concatenating, so a group keeps the input order |
| `SeriesPrep.GroupCounts` | helper.py:48 | a row floored to the key is in the group as many times as in the input, and any other row is not in it |
| `SeriesPrep.Present` | helper.py:48 | the present values are no more than the cells, and there are none exactly when every cell is missing |
| `SeriesPrep.PresentAppend` | helper.py:48 | the present values of a concatenation are those of each part in turn, so they keep their order |
| `SeriesPrep.PresentCounts` | helper.py:48 | every value occurs among the present values as many times as it occurs as a present cell |
| `SeriesPrep.MeanPresent` | helper.py:48 | the mean is missing exactly when every cell of the group is missing |
| `SeriesPrep.MeanSkipsMissing` | helper.py:48 | a missing cell inserted anywhere in a column leaves the mean unchanged, as pandas skips missing values |
| `SeriesPrep.MeanAllPresent` | helper.py:48 | when every cell of a nonempty column is present, the mean is their sum over their count |
| `SeriesPrep.MeanOfOne` | helper.py:48 | the mean of a single cell is that cell, whether present or missing |
| `SeriesPrep.MeanPositive` | helper.py:48 | the mean of positive values is positive |
| `SeriesPrep.Aggregate` | helper.py:48 | the row of a group carries its key and, for every ticker, the mean of the group's cells |
| `SeriesPrep.Resample` | helper.py:46-51 | the result has no more rows than the input, and some whenever the input has some; timestamps are strictly increasing multiples of the bucket; they are exactly the floored input timestamps; every cell is the mean over the input rows floored to that timestamp |
| `SeriesPrep.GroupOfGrid` | helper.py:48 | when timestamps are strictly increasing multiples of the bucket, each group is the single row with that timestamp |
| `SeriesPrep.ResampleOfGrid` | helper.py:46-51 | rows whose timestamps are already strictly increasing multiples of the bucket come out of resampling unchanged |
| `SeriesPrep.ResampleIdempotent` | helper.py:46-51 | resampling resampled rows again changes nothing |
| `SeriesPrep.ResamplePositive` | helper.py:46-51 | resampling positive rows gives positive rows |
| `SeriesPrep.DropMissing` | helper.py:52 | the kept rows are exactly the complete input rows, no more than the input; nothing is kept only when no row is complete |
| `SeriesPrep.DropMissingAppend` | helper.py:52 | dropping from a concatenation is dropping from each part and concatenating, so the kept rows stay in input order, once per occurrence |
| `SeriesPrep.DropMissingOne` | helper.py:52 | a single row is kept, as its complete quote, exactly when none of its cells is missing |
| `SeriesPrep.DropMissingComplete` | helper.py:52 | a table without missing cells loses no row: the kept rows are the input rows, position by position |
| `SeriesPrep.DropMissingKeepsOrder` | helper.py:52 | if the input timestamps are strictly increasing, so are those of the kept rows |
| `SeriesPrep.Derive` | helper.py:57-71 | one row per input row with the same timestamp: USD is the rate, BIST the index, GOLD is gold futures times the rate, BTC is bitcoin times the rate |
| `SeriesPrep.DeriveRecoversDollarPrices` | helper.py:57-62 | dividing a derived GOLD or BTC value by USD gives back the dollar price |
| `SeriesPrep.Normalize` | helper.py:72 | same length and timestamps; every value is the row's value over the first row's value in that column; the first row is all 1 |
| `SeriesPrep.NormalizeIdempotent` | helper.py:72 | normalising a normalised table changes nothing |
| `SeriesPrep.ByColumn` | helper.py:89 | the table as one list per column symbol, each as long as the table and aligned with its rows |
| `SeriesPrep.Rename` | helper.py:74-89 | the renamed mapping has exactly the keys USD, BIST, GOLD and BTC, each holding the list of its symbol's column |
| `SeriesPrep.Emit` | helper.py:74-89 | the keys are exactly USD, BIST, GOLD and BTC; each list and the timestamp list are as long as the table; position i of each is row i's rendered timestamp or value |
| `SeriesPrep.PrepareIndexPageData` | helper.py:25-91 | an empty download fails with NoData for the requested range; every NoData carries that range; a table with rows but without one of the four (field, ticker) columns fails with MissingColumn naming the first such column; a table with the columns whose rows all drop out fails with NoData for the requested range; success happens exactly when the table has rows, has the columns and some row survives; a success is a well-formed page (four display names, aligned lists, every series starting at 1) |
| `SeriesPrep.PreparedValues` | helper.py:52-89 | on success the timestamps are those of the surviving rows in order, and each series is the survivors' value (gold and bitcoin times the rate) over the first survivor's |
| `SeriesPrep.ResampledSurvivorsOnGrid` | helper.py:46-54 | for `"1h"` and `"15T"` the surviving timestamps are strictly increasing multiples of the bucket |
| `SeriesPrep.PositiveThroughPipeline` | helper.py:46-62 | with positive prices in the charted field every derived row is nonzero, so the normalising baseline is never zero |
| `SeriesPrep.PositivePricesSuffice` | helper.py:37-72 | positive prices in the charted field of the four tickers meet the preparation's nonzero-baseline precondition, whatever the table's other fields hold |
| `SeriesPrep.FinishedPage` | helper.py:72-89 | the page built from the surviving rows is well formed and carries their rendered timestamps in order |
| `SeriesPrep.FinishedValues` | helper.py:57-89 | the page's series are the surviving rows' derived values, each over its first value |
| `IndexView.SelectInterval` | app.py:40-45 | `"1d"` exactly when the span exceeds 192 h; `"1h"` exactly when it exceeds 48 h and is at most 192 h; `"15m"` exactly when it is at most 48 h, negative spans included; so exactly one tag for every span |
| `IndexView.LongerSpansCoarserBars` | app.py:40-45 | a longer span never gets a finer interval |
| `IndexView.IntervalBoundaries` | app.py:40-45 | 200 h gives daily; 192 h gives hourly, since the comparison is strict; 168 h and 50 h give hourly; 48 h, 10 h and a negative span (-5 h) give 15-minute |
| `IndexView.ShortSpansAreNotResampled` | app.py:44-45 | the `"15m"` tag of short spans has no bucket, so their rows pass the resample stage unchanged |
| `IndexView.HourlySpansAreResampled` | app.py:40-43 | spans of 49 to 192 hours are resampled to whole hours; longer spans are not resampled |
| `IndexView.StepSize` | app.py:56 | for a span of at least 0, four steps fit in it and four steps one hour longer do not, so the remainder is under 4; for a negative span the step is at most 0 and is the quotient truncated toward zero |
| `IndexView.StepSizeIsOdd` | app.py:56 | the step of the negated span is the negated step |
| `IndexView.StepSizeAboveFloorForNegativeSpans` | app.py:56 | for a negative span that is not a multiple of four, the step is one above the floor of the quotient |
| `IndexView.ArgOr` | app.py:31-32 | a query argument that is present wins; an absent one gives the default |
| `IndexView.Index` | app.py:28-56 | the range is the query's or the default; the handler succeeds exactly when preparing the table downloaded for that range, at the interval its span selects, for the `Close` field succeeds, and then shows that page; its interval and step come from the span; a failure is the preparation's error; every NoData names the requested range; an empty download fails with NoData |

## Left out

- The download from the market-data service (helper.py:28-33) is not modelled. The downloaded table is an input to `PrepareIndexPageData`, and the download is a function parameter of `Index`.
- The date-time library calls are not modelled: the default range, the span in hours, and timezone conversion with ISO formatting (helper.py:7-22, 82-85; app.py:34-38). The default range is an input to `Index`, the span is a function parameter, and ISO rendering is a function parameter `render`.
- `get_initial_filters` is not modelled. It only composes date-time library calls.
- The pan and zoom ranges are not modelled. Their helper, `prepare_chart_actions`, is not part of this model, and neither is the formatting of the link parameters (app.py:58-67).
- Routing, basic authentication, the error handler, template rendering, JSON encoding and environment reading are web-framework glue and are not modelled.
- `FloorTo` floors epoch seconds. pandas floors the wall-clock time of the index's timezone. The two agree when the timezone's offset is a whole number of hours for `"1h"` and of quarter hours for `"15T"`. UTC and Istanbul (+03:00) qualify for both, but a +05:30 zone does not for `"1h"`.
- `Emit` returns a map. The insertion order of the dictionary, which fixes the order of the series on the chart, is not modelled.
- `Normalize` requires a nonempty table with a nonzero first row. Floating-point division by zero, which would give infinities and NaN, is not modelled.
- `PrepareIndexPageData` requires the first surviving row to have no zero value once gold and bitcoin are priced in lira (`BaselineNonZero`). The source divides by that row and would get infinities and NaN, and floating point is not modelled. Positive prices in the charted field suffice (`PositivePricesSuffice`); later rows and other fields are not constrained.
- `Index` requires the same of the table downloaded for the requested range, for the same reason.
- `StepSize` uses exact integer arithmetic. The source divides as a float before truncating, which matches only while the span fits a double exactly.
- `PrepareIndexPageData` ignores the exceptions that pandas or the provider can raise other than the two modelled errors.
