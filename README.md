# back-test in Dafny

This project models the core of the back-test program, a small Rust
backtester for one trading strategy on minute prices, and proves properties
of that model. The program does four things:

1. It reads tab-separated minute records from decompressed archive members.
   Each record becomes a sample `(key, minute offset, price text)` (`generate_min_data`).
2. It files every sample into a store `key -> (offset -> price)`. Empty lines
   are skipped and the last write wins (the line loop of `extract`).
3. For each instrument, it buys at `t + 1` and sells at `t + 2` whenever the
   price rises by at least 1% from `t` to `t + 1` and a price at `t + 2` is
   present (`back_by_type`). A rise without a price at `t + 2` is dropped.
   "A rise of at least 1%" is the f64 test `p(t+1) / p(t) >= 1.01`, so from a
   zero price any positive next price counts (`Signal`). It returns the
   deals, the value multiplier `∏(1 + profit)` and the success ratio.
4. It evaluates the instruments in batches of eight worker threads and
   averages the collected results (`back_test`).

Modules, one per concern:

- `Wrappers`: `Option`. As a success ratio or an average, `None` stands for
  an f64 NaN. As the result of `ParseI64`, `Lookup` or `LastWrite`, it means a
  failed parse or an absent entry.
- `Text`: `str::split` on one character, and `str::parse::<i64>`.
- `Folds`: left-to-right sums and products in the order the program
  accumulates them, and the lemmas that reorder them.
- `Orders`: visiting the elements of a finite set one at a time, in an
  order the program does not choose (the iteration order of a `HashMap`).
- `Config` and `Records` (`src/lib.rs`): the epoch constants, the record
  types and the instrument key.
- `Ingest`: `generate_min_data` and the store-filling loop of `extract`.
- `Strategy`: `back_by_type`.
- `Scheduler`: `back_test`.

The per-element loop bodies are methods, proved against functions that
specify them:

- `IngestContent` against `FileSamples`;
- `BackByType` against `Evaluate`;
- `BackTest` against `Aggregate` and `Reports`.

The program iterates its `HashMap`s in an unspecified order. The model
mirrors this with a nondeterministic choice of the next key (`:|`), and
names the order it took as a ghost out-parameter. The results are stated
for every such order:

- `EvaluationOrderIndependent` shows that the deal multiset, the value and
  the ratio of an instrument do not depend on the visit order.
- `AggregateOrderIndependent` shows the same for the final averages.

Prices are exact reals. A NaN is `None`:

- The success ratio is `suc_cnt / len` behind the guard `len >= 0`, which
  every length passes. An instrument without deals therefore gets
  `0.0 / 0.0`, which is NaN. The model follows the code here (`None`, see
  `SuccessRatio`), rather than a 0.0 ratio by convention.
- `back_test` skips NaN ratios when it sums them but counts them in the
  divisor.
- With no collected result, both averages are NaN.

## Model

| member | source | states |
|---|---|---|
| Config.EpochAligned | src/lib.rs:4-8 | The epoch 1624377600000 ms is a whole number of minutes (27072960 × 60000), so offset 0 starts on a minute boundary |
| Records.Key | src/lib.rs:33-35 | The key `exchange-pre-post` is two characters longer than its three components together |
| Records.KeySplitRoundTrip | src/lib.rs:34 | When no component holds '-', splitting the key on '-' gives back exactly the three components |
| Records.KeyHasThreePieces | src/lib.rs:34 | Any key splits into at least three pieces, so `back_by_type` never fails to find pieces 0, 1 and 2 of a key built by `get_id` |
| Records.KeySplitFailsOnDash | src/lib.rs:34 | The round trip breaks when a component holds '-': exchange "a-b" comes back as "a" |
| Records.MinData.Id | src/lib.rs:33-35 | The sample's key `exchange-pre-post` splits back into its three components when none of them holds '-' |
| Records.Deal.Id | src/lib.rs:147-149 | The deal's key `exchange-pre-post` splits back into its three components when none of them holds '-' |
| Records.DealIdMatchesSampleId | src/lib.rs:147-149 | A deal and a sample with the same three components have the same id, in the same format |
| Text.Split | src/main.rs:167 | A split yields at least one piece, and no piece contains the separator |
| Text.JoinSplit | src/main.rs:167 | Gluing the pieces of a split back with the separator restores the text |
| Text.SplitJoin | src/main.rs:114 | Splitting a join of separator-free pieces restores the pieces |
| Text.SplitAppend | src/main.rs:114 | The pieces of `x + sep + y` are the pieces of x followed by the pieces of y |
| Text.ParseI64 | src/main.rs:199 | A parsed i64 lies in the 64-bit range and comes from a non-empty text |
| Text.ParseShowRoundTrip | src/main.rs:199 | Every 64-bit integer, printed in decimal, parses back to itself |
| Ingest.MinuteOffset | src/main.rs:199 | From the epoch on, the offset m is the minute holding ms (`BASE + m·60000 <= ms < BASE + (m+1)·60000`). Before the epoch, i64 `/` truncates toward zero, so m is the minute ending at or after ms |
| Ingest.OffsetOfEpoch | src/main.rs:199 | The epoch itself is offset 0 |
| Ingest.OffsetOfFirstMinute | src/main.rs:199 | Every millisecond of the first minute after the epoch is offset 0 |
| Ingest.OffsetTruncatesBeforeEpoch | src/main.rs:199 | The last minute before the epoch is also filed as offset 0, where a rounding-down division would give -1 |
| Ingest.OffsetOfWholeMinute | src/main.rs:199 | A timestamp m whole minutes from the epoch gets offset m, for negative m too |
| Ingest.OffsetMonotone | src/main.rs:199 | A later timestamp never gets an earlier offset |
| Ingest.GenerateMinData | src/main.rs:198-200 | The sample's id is built from fields 2, 3 and 4, its price is field 9, and its time is the minute offset of field 5 |
| Ingest.WellFormedFields | src/main.rs:199 | A line the program can read without panicking has 10 fields, an i64 in field 5, and `ms - BASE_TIME` inside the i64 range |
| Ingest.NonBlank | src/main.rs:173 | Exactly the non-empty lines are kept, each as often as it occurs, and nothing else |
| Ingest.Samples | src/main.rs:170-176 | The lines yield at most one sample each, and lines that are all empty yield none |
| Ingest.SamplesOfNonBlankLines | src/main.rs:167-176 | Empty lines yield no sample. Each non-empty line yields exactly one sample, built from that line, in line order |
| Ingest.InsertRecord | src/main.rs:177-185 | After filing a sample, `store[id][time] == price`. An unseen id gets a singleton series. The id's other offsets and all other ids are unchanged |
| Ingest.FileSamples | src/main.rs:177-185 | Filing samples keeps every key and offset already in the store, and files the key and offset of every sample |
| Ingest.FileSamplesKeys | src/main.rs:179-184 | Filing creates no key of its own: the keys afterwards are exactly the old keys and the samples' ids |
| Ingest.LastWrite | src/main.rs:179-185 | A sample for (id, t) is found exactly when some sample has that id and offset, and then its price is that of the last such sample |
| Ingest.IngestLastWriteWins | src/main.rs:170-188 | After ingestion the price at (id, t) is that of the last sample for (id, t), and otherwise what the store held before |
| Ingest.DuplicateOffsetLaterWins | src/main.rs:180 | Of two samples with the same id and offset, the later one's price is stored |
| Ingest.IngestConcat | src/main.rs:156-190 | Filing two batches one after the other equals filing their concatenation: the store is shared by all archive members |
| Ingest.IngestKeepsKeysSplit | src/main.rs:177-184 | Every key of the store splits into at least three pieces on '-' |
| Ingest.FileLine | src/main.rs:170-185 | One pass of the line loop leaves the store unchanged on an empty line, and otherwise files that line's sample as `InsertRecord` does |
| Ingest.FileSamplesOfLine | src/main.rs:170-185 | Filing the samples of one more line is filing the earlier lines' samples and then, unless that line is empty, its own sample |
| Ingest.IngestContent | src/main.rs:167-188 | The line loop over one decoded member leaves the store equal to filing that member's samples in order |
| Ingest.Extract | src/main.rs:154-192 | The store after all members equals filing every member's samples in member order, and all its keys split into three pieces |
| Strategy.Signal | src/main.rs:110 | At a zero price the f64 quotient is +inf for a positive next price (fires) and NaN or -inf otherwise (does not fire); from a positive price a signal is a strict rise |
| Strategy.SignalTimes | src/main.rs:107-111 | A deal-making offset (`Fires`) is an offset of the series whose next two minutes are present |
| Strategy.SignalIsQuotientTest | src/main.rs:110 | Away from a zero buy price, the signal is exactly `p(t+1) / p(t) >= 1.01` |
| Strategy.SignalBuyPriceNonZero | src/main.rs:110-113 | A signal never fires on a zero `t + 1` price, so the profit's division is defined |
| Strategy.DealAt | src/main.rs:107-117 | The deal of signal offset t buys at t+1 at p(t+1) and sells at t+2 at p(t+2) |
| Strategy.DealProfit | src/main.rs:113 | `buy_price · (1 + profit) == sell_price` |
| Strategy.DealSucceedsIffNoLoss | src/main.rs:113-121 | With a positive buy price, a deal counts as a success exactly when it does not sell below its buy price |
| Strategy.DealCarriesInstrumentId | src/main.rs:114-116 | When the key components hold no '-', the deal's exchange and coins are the key's own, and the deal's id is the key |
| Strategy.Growth | src/main.rs:119 | A deal's growth factor `1 + profit` is at least 1 exactly when it makes no loss |
| Strategy.Success | src/main.rs:120-122 | A deal adds 1 to the success count exactly when its growth factor is at least 1, and 0 otherwise |
| Strategy.Value | src/main.rs:101-119 | The value starts at 1.0 with no deals, and is the growth factor of the only deal when there is one |
| Strategy.SuccessCount | src/main.rs:103-122 | The success count starts at 0.0 with no deals |
| Strategy.SuccessCountBounded | src/main.rs:121-123 | The success count lies between 0 and the number of deals |
| Strategy.SuccessRatio | src/main.rs:129-133 | The ratio is NaN (None) exactly when there are no deals, and lies in [0, 1] otherwise |
| Strategy.DealsAlong | src/main.rs:104-127 | Visiting the offsets in a given order makes one deal per firing offset of that order |
| Strategy.MadeAtVisit | src/main.rs:104-117 | Visiting t adds deal d exactly when d is the deal of firing offset t = buy time - 1 |
| Strategy.DealsAlongCounts | src/main.rs:104-127 | Each deal occurs as often as its offset is visited if it is the deal of a firing offset, and never otherwise |
| Strategy.FiringCounts | src/main.rs:104-127 | Each offset is taken as often as it is visited if it fires, and never otherwise |
| Strategy.Evaluate | src/main.rs:97-136 | For one visit order: the result carries the key, at most one deal per visited offset, the deals' value (1.0 with none), and a ratio that is NaN exactly when there are no deals and in [0, 1] otherwise |
| Strategy.EvaluateExactly | src/main.rs:104-127 | With every offset visited once: one deal per signal offset, each signal's deal exactly once, and no other deal |
| Strategy.EvaluationOrderIndependent | src/main.rs:104 | Two visit orders of the same offsets give the same deal multiset, value and success ratio |
| Strategy.EvaluateSummary | src/main.rs:99-135 | For any visit order: the instrument's deals (up to order), value and ratio; as many deals as signal offsets, at most the number of offsets; the ratio in [0, 1]; and with no deal, value 1.0 and a NaN ratio |
| Strategy.BackByType | src/main.rs:97-136 | The loop visits every offset once, in some order, and returns the id, the deals of that order, their value and their success ratio; the deal multiset, value and ratio are the instrument's own, whatever the order |
| Strategy.VisitOffset | src/main.rs:105-126 | One loop pass appends the deal of t exactly when the price rises 1% from t to t+1 and t+2 is present. The value and the success count stay the product and the sum over the deals made |
| Strategy.LosingSeriesDeals | src/main.rs:104-117 | {10: 1.00, 11: 1.02, 12: 0.99} makes one deal: buy 1.02 at minute 11, sell 0.99 at minute 12, profit 0.99/1.02 - 1 |
| Strategy.OneLosingDeal | src/main.rs:99-135 | For that series the value is 0.99/1.02 and the success ratio 0.0, in every visit order |
| Strategy.FlatSeriesNoDeal | src/main.rs:99-135 | {5: 1.00, 6: 1.00} makes no deal, with value 1.0 and a NaN ratio, in either order |
| Folds.ProductPermutation | src/main.rs:119 | Reordering the deals does not change the product of their growth factors |
| Folds.SumPermutation | src/main.rs:78-81 | Reordering the terms does not change a sum |
| Folds.FoldPermutation | src/main.rs:119 | Reordering the operands of a fold whose operation is right-commutative does not change it |
| Folds.SumAlong | src/main.rs:78-81 | Sequences whose terms agree position by position have equal sums |
| Scheduler.Parsed | src/main.rs:105-112 | Reading every price text keeps the store's keys and every series' offsets, and each price at (k, t) is `parse` of the text filed at (k, t) |
| Scheduler.ParsedEvaluable | src/main.rs:114-116 | A store whose keys all split into three pieces, as `Extract` guarantees, can be backtested whatever its texts parse to: the piece `unwrap`s never panic |
| Scheduler.Mean | src/main.rs:89-90 | The mean is NaN exactly when there are no results |
| Scheduler.LessOne | src/main.rs:90 | Subtracting 1 keeps NaN as NaN and is undone by adding 1 |
| Scheduler.AvgProfit | src/main.rs:89-90 | The average profit is NaN exactly when no result was collected |
| Scheduler.AvgSuccess | src/main.rs:89-90 | The average success ratio is NaN exactly when no result was collected |
| Scheduler.Aggregate | src/main.rs:88-90 | The final result holds the collected results, and both averages are NaN exactly when nothing was collected |
| Scheduler.AggregateOrderIndependent | src/main.rs:76-90 | The averages do not depend on the order of the collected results |
| Scheduler.RatioSumBounded | src/main.rs:79-81 | With every ratio in [0, 1], the success sum lies between 0 and the number of results |
| Scheduler.AvgSuccessBounded | src/main.rs:79-90 | With every ratio in [0, 1], the average success ratio lies in [0, 1] |
| Scheduler.NaNRatioDilutesAverage | src/main.rs:79-90 | A NaN ratio adds nothing to the success sum but counts in the divisor: ratios 1.0 and NaN average 0.5 |
| Scheduler.BackOne | src/main.rs:69-71 | A worker's result is the instrument's: its id, its deals up to order, its value and its ratio, with the ratio in [0, 1] |
| Scheduler.Join | src/main.rs:76-83 | Joining a batch appends its results in spawn order and keeps the running sums equal to the value sum and the non-NaN ratio sum of all collected results |
| Scheduler.Finish | src/main.rs:88-90 | The final result is `Aggregate` of the collected results |
| Scheduler.Spawn | src/main.rs:67-86 | One loop iteration keeps the spawned results reporting the visited keys in order, the batch count, and the running sums |
| Scheduler.Collect | src/main.rs:72-85 | The new result joins the pending batch, and the batch is joined exactly when the spawn counter reaches a multiple of 8 |
| Scheduler.CountStep | src/main.rs:74 | The counter reaches a multiple of 8 exactly when the pending batch fills to 8 |
| Scheduler.CountedCollects | src/main.rs:74 | After i spawns the collected count is `i - i % 8` |
| Scheduler.CollectedCount | src/main.rs:74-86 | The collected count is a multiple of 8, at most the number of instruments, and fewer than 8 short of it |
| Scheduler.SpawnAll | src/main.rs:67-86 | The loop spawns one worker per key, each key once in some order. Full batches of 8 are joined, fewer than 8 results stay pending, every result reports the key spawned at its position, and the running sums are those of the joined results |
| Scheduler.BackTest | src/main.rs:54-91 | Every instrument is visited once in some order. The result holds exactly the first `n - n % 8` of them, each result reporting the instrument visited at its position, and the averages are `Aggregate` of those results |
| Scheduler.TrailingBatchDropped | src/main.rs:74-86 | When the number of instruments is not a multiple of 8, some are never collected: 9 instruments give 8 results, 7 give none |
| Scheduler.ReportsSums | src/main.rs:78-81 | The sums over results that report a sequence of keys equal the sums of those instruments' values and ratios |
| Scheduler.AggregateOfReports | src/main.rs:88-90 | Results reporting every instrument once, in any order, average to the averages over the whole store |
| Scheduler.BackTestAll | src/main.rs:54-91 | With the last batch joined after the loop: one result per instrument, and the averages are those over the whole store |
| Scheduler.Run | src/main.rs:14-20 | `main` up to its output: the store `Extract` fills from the members, parsed, is backtested as written. Every filed instrument is visited once, and the instruments are exactly the ids of the input samples; the first `n - n % 8` results report the instruments at their positions and are averaged |

## Left out

- The progress messages that `extract`, `back_by_type` and `back_test` print to the console (src/main.rs:55, 88, 98, 142, 160, 191) are output only and are not modelled.
- Archive unpacking, directory listing, xz decompression and UTF-8 decoding (src/main.rs:143-165) are I/O. `Extract` starts from the decoded text of each member, in listing order.
- `write_result` and the `to_line` methods (src/main.rs:22-47, src/lib.rs:96-98, 141-145) only write files and the console and format floats. The model does not contain them; `Run` is `main` without its call to `write_result`.
- Threads: `thread::spawn` and `join` are modelled by evaluating each worker in place, in spawn order. A join that fails because its worker panicked is not modelled.
- Floating point: prices, profits, value products and sums are exact reals. f64 rounding, infinities, the exact f64 meaning of `>= 1.01` and `-0.0` are not modelled.
- The signal at a zero price follows f64: `x / 0.0` is +inf for x > 0 and NaN or -inf otherwise (`Signal`).
- `parse::<f64>` is the `parse` parameter of `Scheduler.Parsed`. `BackTest` takes the already parsed store, so an unparseable price text, which panics in the source, is not modelled.
- Panics are preconditions, not behaviour. A non-empty line needs 10 fields and an i64 in field 5, whose `unwrap`s panic otherwise. `WellFormedFields` also requires `ms - BASE_TIME` to stay inside the i64 range: that subtraction panics in a debug build and wraps around in a release build, and the model excludes both. An instrument that makes a deal needs a key with three '-'-separated pieces (`Evaluable`); `Extract` proves that every key it files has them.
- i64 overflow of `t + 1` and `t + 2` is not modelled: offsets are unbounded integers.
- HashMap iteration order is unspecified. The model takes each next key nondeterministically, and its contracts hold for every order. Within `back_by_type`, the order of the deals is stated only by `DealsAlong` for the order taken; the summary states the deal multiset.
- The getters and constructors of `src/lib.rs` (`new`, `get_time`, `get_price`, `value`, `suc_ratio`, `deal_vec`, `result_vec`, `avg_profit`) are the constructors and fields of the datatypes, which store their arguments unchanged. `get_price`'s `format!("{}", price)` is the identity on the text.

## Findings

| source | as written | input that shows it | evidently intended | confidence | as-written member | corrected member |
|---|---|---|---|---|---|---|
| src/main.rs:74-86 | Workers are joined only when the spawn counter is a multiple of 8. After the loop, a partial batch is never joined, so its results are not collected, not averaged, not reported, and the averages divide by the smaller count | a store of 9 instruments: 8 results are collected and one instrument is lost; with 7 instruments, nothing is collected and both averages are NaN | join the pending workers once more after the loop, so every instrument is collected exactly once and averaged | not executed | Scheduler.BackTest, Scheduler.TrailingBatchDropped | Scheduler.BackTestAll |
