# Price pipeline core, modelled in Dafny

This project models the three transformation stages of a daily-price
pipeline and proves properties of them:

- **Cleaning** (`raw.prices` to `bronze.prices`). One SELECT keeps the rows
  whose volume and four quoted prices are positive. It then keeps one row
  per `(ticker, date)` among the survivors.
- **Stabilisation** (`bronze.prices` to `silver.prices`). Every row gets
  `valid_from = date` and an open `valid_to`. Then a loop over the five
  price columns clips each column, in place, to the band
  `mean ± 3·σ` of its own current values.
- **Features and labels** (`silver.prices` to `gold.features` and
  `gold.labels`). The frame is ordered by `(ticker, date)`. The benchmark
  ticker's 252-row forward return is computed once. Then, for every other
  ticker, in ticker order:
  - a trailing 252-row momentum;
  - its own forward return;
  - the benchmark's forward return, joined by date;
  - the excess return, and a 0/1 hit label at the 2% threshold.

  The per-ticker frames are concatenated.

Modules, one per stage plus shared pieces:

- `Wrappers`: `Option` (a pandas NaN is `None`) and `Result`.
- `Seqs`: concatenation of a list of frames (`pd.concat`).
- `Bronze`: the cleaning query as a function.
  - `IsCleaning` states what every admissible choice among duplicate rows
    satisfies.
  - `Clean` is one such choice: the first surviving row in input order.
- `Silver`: the stamping and the winsorisation.
  - The winsorisation is an array of rows updated in place by looping
    methods (`WinsorizeInPlace`, `ClipColumn`, `ClipInPlace`,
    `ColumnMean`).
  - Those methods are proved against the value-level specification
    `Winsorized`.
- `Series`: pandas `pct_change(periods=p)` and `shift(-p)` on sequences of
  optional values, and the forward return built from them.
- `Features`: `momentum_12m` and `compute_excess_return`.
- `Gold`:
  - the benchmark table and the date join;
  - the per-ticker computation (`ProcessGroup`);
  - `groupby` as maximal runs of one ticker;
  - the stage as a value (`BuildGold`) and as the script's loop
    (`GenerateGold`).
- `GoldProperties`: the table-level properties of the feature/label stage.

Values are exact: prices are `real`, dates are day numbers (`int`) and
tickers are strings. The spread `σ` of each column is a parameter. The
benchmark ticker, the horizon (252) and the hit threshold (0.02) form a
`Config`. `SourceConfig` holds the script's values.

On these points the model follows the code:

- **Undefined excess return.** `hit_2pct` is 0, not undefined, when the
  excess return is undefined. The code compares a NaN with `>=` and casts
  the result to int (etl/generate_gold.py:59).
- **Missing benchmark.** The stage does not fail. Every `spy_fwd_ret`, every
  excess return and every hit label is then undefined, undefined and 0
  respectively (`GoldProperties.BenchmarkAbsent`). The only failure
  modelled is `pd.concat` of an empty list, which happens when no
  non-benchmark ticker exists.
- **No ticker in `gold.features`.** That table carries the `date` index and
  the feature columns, but no `ticker` column.
- **Fixed momentum window.** The momentum window is a fixed 252 in
  src/features.py. It does not follow the configurable horizon.
- **Duplicate choice.** The row kept among duplicates is not fixed. The
  window orders each `(ticker, date)` partition by `date`, which ties.
  Every property of the cleaning stage is therefore proved for every
  admissible choice (`IsCleaning`), not only for `Clean`'s.

## Model

| member | source | states |
|---|---|---|
| Bronze.FilterValid | etl/bronze_transform.py:40-44 | a row is kept exactly when it is an input row whose volume, close, open, high and low are all positive; nothing is added (order: `Bronze.FilterValidAppend`) |
| Bronze.FilterValidAppend | etl/bronze_transform.py:40-44 | the filter keeps input order: filtering a concatenation is filtering each part and concatenating the results |
| Bronze.Dedup | etl/bronze_transform.py:45-48 | every kept row is an input row, the set of `(ticker, date)` keys is unchanged, and no key occurs twice |
| Bronze.Clean | etl/bronze_transform.py:28-49 | the filter-then-dedup result is an admissible cleaning: its rows are passing input rows taken whole, its keys are unique, and every key with a passing row is present |
| Bronze.ExactlyOncePerKey | etl/bronze_transform.py:40-48 | for any choice among duplicates, a key occurs exactly once in the output if some row with that key passes the filter, and not at all otherwise |
| Bronze.FilterBeforeDedup | etl/bronze_transform.py:40-48 | a failing row never displaces a passing row with the same key: the key is present once, the failing row is absent, and every output row with that key passes |
| Bronze.InvalidDuplicateScenario | etl/bronze_transform.py:40-48 | a failing row first and a passing duplicate second clean to just the passing row |
| Bronze.CleaningShrinks | etl/bronze_transform.py:28-49 | any admissible cleaning has no more rows than its input |
| Bronze.CleanIdempotent | etl/bronze_transform.py:28-49 | cleaning the cleaned table gives the same table |
| Bronze.CleaningStable | etl/bronze_transform.py:28-49 | for any choices among duplicates, cleaning a cleaned table keeps the same rows and the same row count |
| Bronze.DedupOfUnique | etl/bronze_transform.py:45-48 | a table whose keys are already unique passes the dedup unchanged |
| Silver.Stamp | etl/silver_transform.py:30-31 | the row is kept whole, `valid_from` is its date and `valid_to` is open |
| Silver.Stamped | etl/silver_transform.py:30-31 | no row is added or dropped |
| Silver.StampedRow | etl/silver_transform.py:30-31 | row i of the stamped table is input row i with `valid_from = date` and an open `valid_to` |
| Silver.StabilizedRow | etl/silver_transform.py:30-39 | row i of the winsorised stamped table keeps date, ticker and volume, has `valid_from = date` and an open `valid_to`, and has each price clipped to its column's band |
| Silver.Stabilize | etl/silver_transform.py:25-40 | the row count is kept; each row gets `valid_from = date` and an open `valid_to`; date, ticker and volume are unchanged; each price is its bronze value clipped to the band of that column's pre-clip values over the whole table, and lies in the band when σ ≥ 0 |
| Silver.WinsorizeInPlace | etl/silver_transform.py:34-39 | after the column loop the array equals `Winsorized` of its old contents: every price column clipped to the band of its own pre-clip values |
| Silver.ClipColumn | etl/silver_transform.py:35-39 | one pass of the loop, from "first k columns clipped" to "first k+1 columns clipped", with column k's band taken from its original values |
| Silver.ClipInPlace | etl/silver_transform.py:39 | every row has column c clipped to the given band, and no other field of any row changes |
| Silver.ColumnMean | etl/silver_transform.py:36 | the loop's result is the mean of the column as it stands |
| Silver.ColumnNotYetClipped | etl/silver_transform.py:35-38 | clipping the earlier columns leaves column k's values, and so its mean and band, as they were before any clipping |
| Silver.ClipStep | etl/silver_transform.py:38-39 | clipping column k of a row with the first k columns done gives the row with k+1 columns done |
| Silver.Clip | etl/silver_transform.py:39 | the result lies in the band; values inside the band are kept, values below become the lower end, values above become the upper end; reversed bounds are swapped first |
| Silver.ClipMonotone | etl/silver_transform.py:39 | with fixed bounds, clipping preserves order |
| Silver.ClipIdempotent | etl/silver_transform.py:39 | clipping twice to the same band is clipping once |
| Silver.WinsorizeKeepsPositive | etl/silver_transform.py:36-39 | a column whose values are all positive is still positive after clipping to its band when σ ≥ 0 |
| Silver.SingleRowUnchanged | etl/silver_transform.py:36-39 | a one-row table is left unchanged by winsorisation, whatever σ is |
| Series.PctChange | src/features.py:10 | same length as the input; position t is defined exactly when t ≥ p, and then `r[t] + 1 = xs[t]/xs[t−p]` |
| Series.ShiftBack | etl/generate_gold.py:52 | same length; position t holds position t+p of the input when that exists, and is undefined in the last p positions |
| Series.ShiftBackCompose | etl/generate_gold.py:52 | shifting back by p and then by q is shifting back by p+q |
| Series.ForwardReturn | etl/generate_gold.py:52 | same length as the prices; position t is `adj[t+H]/adj[t] − 1` when t+H is inside the series and undefined otherwise |
| Series.ForwardReturnDefinedCount | etl/generate_gold.py:52 | exactly n − H positions are defined, or none when n ≤ H |
| Features.Momentum12m | src/features.py:5-10 | same length as the input; defined exactly from position 252 on, with value `adj[t]/adj[t−252] − 1` |
| Features.MomentumNoLookahead | src/features.py:7-10 | two series that agree up to t give the same momentum at t |
| Features.MomentumCausal | src/features.py:7-10 | momentum of a series, cut at t, equals momentum of the series cut at t |
| Features.MomentumDefinedCount | src/features.py:10 | exactly n − 252 values are defined, or none when n ≤ 252 |
| Features.ComputeExcessReturn | src/features.py:13-17 | defined exactly when both returns are; then excess + benchmark return = stock return |
| Features.ExcessOfSelf | src/features.py:17 | the excess of a defined return over itself is 0 |
| Gold.Select | etl/generate_gold.py:30 | a row is selected exactly when it is an input row whose ticker is (or, for the other choice, is not) the given one |
| Gold.BenchmarkTable | etl/generate_gold.py:30-35 | one entry per benchmark row; the entries themselves are stated by `Gold.BenchmarkTableAt` |
| Gold.BenchmarkTableAt | etl/generate_gold.py:30-35 | the benchmark table's entry j carries the j-th benchmark row's date and its H-row forward return, undefined in the last H rows |
| Gold.SpyLookup | etl/generate_gold.py:55 | the joined value is undefined when no benchmark entry has the date, and is that entry's return when dates are unique |
| Gold.HitLabel | etl/generate_gold.py:59 | the label is 0 or 1, and is 1 exactly when the excess is defined and at least the threshold |
| Gold.ProcessGroup | etl/generate_gold.py:45-73 | a ticker's feature frame and label frame each have one row per input row; the rows themselves are stated by `Gold.ProcessGroupRows` |
| Gold.ProcessGroupRows | etl/generate_gold.py:45-73 | row t of a ticker's frames: prices, volume and date copied from the input row; momentum, own forward return and joined benchmark return as defined above; excess and hit consistent with them |
| Gold.Groups | etl/generate_gold.py:41 | every group is non-empty and holds a single ticker |
| Gold.GroupsCover | etl/generate_gold.py:41 | the groups, concatenated in order, are the whole frame |
| Gold.NonBenchmarkGroups | etl/generate_gold.py:41-43 | the loop processes exactly the groups that are not the benchmark's, in order |
| Gold.BuildGold | etl/generate_gold.py:38-77 | the stage as a value; it has no contract of its own, and its properties are the `GoldProperties` lemmas (`GoldFailsIffOnlyBenchmark`, `GoldRowAlignment`, `GoldRowSource`, `GoldExcludesBenchmark`, `GoldTickerCounts`, `GoldOrdered`) |
| Gold.GenerateGold | etl/generate_gold.py:38-77 | the loop that appends each non-benchmark group's frames, followed by the concatenation, yields `BuildGold` |
| GoldProperties.GroupsAreTickerGroups | etl/generate_gold.py:27-41 | on a frame sorted by `(ticker, date)`, group tickers strictly increase and each group is exactly that ticker's rows in input order |
| GoldProperties.KeptGroups | etl/generate_gold.py:41-43 | the processed groups, concatenated, are the input without the benchmark's rows |
| GoldProperties.GoldFailsIffOnlyBenchmark | etl/generate_gold.py:76-77 | the stage fails exactly when no row outside the benchmark exists |
| GoldProperties.GoldRowAlignment | etl/generate_gold.py:62-77 | when some non-benchmark row exists the stage succeeds, both tables have one row per non-benchmark input row, and row i of each carries that input row's date (features: also its prices and volume; labels: its ticker) |
| GoldProperties.GoldRowSource | etl/generate_gold.py:41-77 | for each non-benchmark input row i the stage succeeds, and output row i of both tables is row t of some non-benchmark group, processed by the per-ticker computation |
| GoldProperties.GoldExcludesBenchmark | etl/generate_gold.py:42-43 | when the stage succeeds (some non-benchmark row exists), no label row has the benchmark ticker |
| GoldProperties.GoldTickerCounts | etl/generate_gold.py:45-77 | when the stage succeeds, each ticker has as many label rows as input rows, and the benchmark has none |
| GoldProperties.GoldOrdered | etl/generate_gold.py:27-77 | on input sorted by `(ticker, date)` with a non-benchmark row, the stage succeeds and label rows are strictly ordered by ticker, then date |
| GoldProperties.GoldRowOrigin | etl/generate_gold.py:41-77 | on sorted input, output row i is row t of its ticker's full series, processed with that series as its group |
| GoldProperties.BenchmarkDatesUnique | etl/generate_gold.py:30-31 | on sorted input the benchmark table's dates are unique, so the join matches at most one entry |
| GoldProperties.SpyFwdRetAtBenchmarkDate | etl/generate_gold.py:30-55 | at a benchmark date the joined value is the benchmark's own forward return there |
| GoldProperties.SpyFwdRetOffBenchmarkDate | etl/generate_gold.py:55 | at a date with no benchmark row the joined value is undefined |
| GoldProperties.NoBenchmarkLabel | etl/generate_gold.py:30-59 | with no benchmark rows, the stage succeeds and each label row has an undefined benchmark return, an undefined excess and hit 0 |
| GoldProperties.BenchmarkAbsent | etl/generate_gold.py:30-59 | with no benchmark rows and a non-empty input, the stage succeeds, and every label row has undefined benchmark and excess returns and hit 0 |
| GoldProperties.MomentumColumnCount | etl/generate_gold.py:49 | a ticker with n rows has exactly n − 252 defined momentum values, or none |
| GoldProperties.FullOverlapCensoring | etl/generate_gold.py:49-59 | for a ticker whose dates are exactly the benchmark's, exactly n − H rows have a defined excess return and exactly n − 252 a defined momentum |

## Left out

- **DuckDB plumbing.** Connecting, creating schemas, dropping and creating
  tables, registering frames, and the row-count prints are not modelled.
  Tables are sequences passed in and returned.
- **Type casts.** The CAST list of the cleaning query is not modelled, and
  a failing cast is not an error here. Rows arrive already typed.
- **Missing prices.** Input prices are never missing here. A NULL
  `adj_close` passes the cleaning filter (etl/bronze_transform.py:40-44),
  since only volume, close, open, high and low are tested. The silver mean
  would skip such a value, and the clip would keep it missing. The
  `fill_method='pad'` default of `pct_change`
  (etl/generate_gold.py:33,52; src/features.py:10), which fills a missing
  price from the previous one before taking the ratio, is not modelled
  either.
- **Floating point.** Arithmetic is on exact reals. A NaN is `None`.
  Rounding, infinities and NaN propagation inside the mean are not
  modelled.
- **Standard deviation.** `df[col].std()` (sample standard deviation, NaN
  for one row) is a per-column parameter σ, because square roots are not
  modelled. `Silver.SingleRowUnchanged` shows that the one-row case, where
  pandas leaves the column unclipped, holds here for every σ.
- Gold.BuildGold: requires every `adj_close` to be non-zero. A zero
  would make pandas divide by zero and produce an infinity, which is not
  modelled. `Gold.GenerateGold`, `Features.Momentum12m` and
  `Series.ForwardReturn` carry the same requirement for the same reason.
- **Frame order.** The `ORDER BY ticker, date` fetch is not modelled as a
  sort. The model takes the frame in the order given. Properties that
  depend on the order take a strict `(ticker, date)` order as a
  hypothesis: on string order (code-point lexicographic order) and on
  unique `(ticker, date)` keys, which the cleaning stage guarantees.
- Gold.SpyLookup: uses the first benchmark entry with the date. pandas'
  join would repeat a row for repeated benchmark dates.
  `GoldProperties.BenchmarkDatesUnique` shows that dates are unique on
  sorted input, which is where the two agree.
- **Dates and index.** Dates are day numbers. The index is not a separate
  column. The join compares dates for equality.
- **`valid_to`.** The NaT column is the `None` value of `validTo`.
