/** The driver of src/main.rs (`back_test`): every instrument of the store is
    backtested, the results are collected in batches of THREAD_SIZE, and the
    collected results are averaged. The worker threads are evaluated in
    place, one after the other, in the order they are spawned; a batch is
    joined in spawn order. */
module Scheduler {
  import opened Wrappers
  import opened Folds
  import opened Orders
  import opened Records
  import opened Strategy
  import opened Ingest
  import opened Text

  /** The number of workers spawned before a batch is joined. */
  const THREAD_SIZE: nat := 8

  /** Instrument key -> its parsed price series. */
  type Instruments = map<string, Prices>

  /** The store of price texts with every text read by `parse::<f64>`,
      which is a parameter of the model; back_by_type reads each text where
      it uses it. */
  function Parsed(store: Store, parse: string -> real): (all: Instruments)
    ensures all.Keys == store.Keys
    ensures forall k :: k in store ==> all[k].Keys == store[k].Keys
    ensures forall k, t :: k in store && t in store[k] ==> all[k][t] == parse(store[k][t])
  {
    map k | k in store :: map t | t in store[k] :: parse(store[k][t])
  }

  predicate AllEvaluable(all: Instruments) {
    forall k :: k in all ==> Evaluable(k, all[k])
  }

  /** Every instrument of a store whose keys all split into three pieces
      can be backtested, whatever its prices parse to. */
  lemma ParsedEvaluable(store: Store, parse: string -> real)
    requires KeysSplit(store)
    ensures AllEvaluable(Parsed(store, parse))
  {
    var all := Parsed(store, parse);
    forall k | k in all ensures Evaluable(k, all[k]) {
      assert HasDealPieces(k);
    }
  }

  // ---------------------------------------------------------------------
  // Averages

  function ValueOf(r: BackResult): real {
    r.value
  }

  /** A ratio's part in the success sum: a NaN ratio is skipped. */
  function RatioOrZero(r: BackResult): real {
    if r.sucRatio.Some? then r.sucRatio.value else 0.0
  }

  /** `total / n` in f64: with n == 0 the total is 0.0 too, and 0.0 / 0.0
      is NaN. */
  function Mean(total: real, n: nat): (m: Option<real>)
    ensures m.None? <==> n == 0
  {
    if n == 0 then None else Some(total / (n as real))
  }

  /** `x - 1.0`, NaN staying NaN. */
  function LessOne(m: Option<real>): (r: Option<real>)
    ensures r.None? <==> m.None?
    ensures r.Some? ==> r.value + 1.0 == m.value
  {
    if m.Some? then Some(m.value - 1.0) else None
  }

  /** `value_sum / len - 1.0`. */
  function AvgProfit(results: seq<BackResult>): (avg: Option<real>)
    ensures avg.None? <==> |results| == 0
  {
    LessOne(Mean(Sum(results, ValueOf), |results|))
  }

  /** `suc_sum / len`: the non-NaN ratios summed, divided by the number of
      all results. */
  function AvgSuccess(results: seq<BackResult>): (avg: Option<real>)
    ensures avg.None? <==> |results| == 0
  {
    Mean(Sum(results, RatioOrZero), |results|)
  }

  /** The final result over the collected results. */
  function Aggregate(results: seq<BackResult>): (f: FinalResult)
    ensures f.results == results
    ensures f.avgProfit.None? <==> |results| == 0
    ensures f.sucRatio.None? <==> |results| == 0
  {
    FinalResult(results, AvgProfit(results), AvgSuccess(results))
  }

  /** The averages do not depend on the order of the results. */
  lemma AggregateOrderIndependent(a: seq<BackResult>, b: seq<BackResult>)
    requires multiset(a) == multiset(b)
    ensures Aggregate(a).avgProfit == Aggregate(b).avgProfit
    ensures Aggregate(a).sucRatio == Aggregate(b).sucRatio
  {
    assert |a| == |multiset(a)| == |multiset(b)| == |b|;
    SumPermutation(a, b, ValueOf);
    SumPermutation(a, b, RatioOrZero);
  }

  /** The success sum never exceeds the number of results when every ratio
      lies in [0, 1]. */
  lemma {:induction false} RatioSumBounded(results: seq<BackResult>)
    requires forall i :: 0 <= i < |results| ==> RatioInRange(results[i])
    ensures 0.0 <= Sum(results, RatioOrZero) <= |results| as real
    decreases |results|
  {
    if |results| > 0 {
      RatioSumBounded(results[..|results| - 1]);
    }
  }

  predicate RatioInRange(r: BackResult) {
    r.sucRatio.Some? ==> 0.0 <= r.sucRatio.value <= 1.0
  }

  /** The average success lies in [0, 1] when every ratio does. */
  lemma AvgSuccessBounded(results: seq<BackResult>)
    requires forall i :: 0 <= i < |results| ==> RatioInRange(results[i])
    ensures AvgSuccess(results).Some? ==> 0.0 <= AvgSuccess(results).value <= 1.0
  {
    RatioSumBounded(results);
    if |results| > 0 {
      var n := |results| as real;
      var s := Sum(results, RatioOrZero);
      assert s / n <= 1.0 by {
        assert s <= n;
        DivideAtMostOne(s, n);
      }
    }
  }

  lemma DivideAtMostOne(s: real, n: real)
    requires 0.0 <= s <= n && n > 0.0
    ensures 0.0 <= s / n <= 1.0
  {
  }

  /** A result whose ratio is NaN adds nothing to the success sum but still
      counts in the divisor: a perfect instrument next to one without deals
      averages 0.5. */
  lemma NaNRatioDilutesAverage(k1: string, k2: string)
    ensures AvgSuccess([BackResult(k1, [], 1.0, Some(1.0)), BackResult(k2, [], 1.0, None)]) == Some(0.5)
    ensures AvgProfit([BackResult(k1, [], 1.0, Some(1.0)), BackResult(k2, [], 1.0, None)]) == Some(0.0)
  {
    var rs := [BackResult(k1, [], 1.0, Some(1.0)), BackResult(k2, [], 1.0, None)];
    SingletonProduct(rs[0], RatioOrZero);
    SingletonProduct(rs[0], ValueOf);
    assert rs[..1] == [rs[0]];
  }

  // ---------------------------------------------------------------------
  // What a collected result says about its instrument

  /** What a result says about its instrument: the deals up to their
      order, the value and the success ratio. */
  datatype Summary = Summary(id: string, deals: multiset<Deal>, value: real, sucRatio: Option<real>)

  function SummaryOf(r: BackResult): Summary {
    Summary(r.id, multiset(r.deals), r.value, r.sucRatio)
  }

  /** The summary of instrument k, whatever order its series is visited
      in; a key outside the store, or one that back_by_type cannot
      evaluate, has no deals and no ratio. */
  ghost function InstrumentSummary(all: Instruments, k: string): Summary {
    if k in all && Evaluable(k, all[k]) then
      Summary(k, multiset(InstrumentDeals(k, all[k])), InstrumentValue(k, all[k]), InstrumentRatio(k, all[k]))
    else
      Summary(k, multiset{}, 1.0, None)
  }

  /** r is the result of backtesting instrument k. */
  ghost predicate Reports(all: Instruments, k: string, r: BackResult)
  {
    k in all && SummaryOf(r) == InstrumentSummary(all, k)
  }

  /** Each result reports the key spawned at the same position. */
  ghost predicate ReportsAlong(all: Instruments, keys: seq<string>, results: seq<BackResult>)
  {
    |results| <= |keys| && forall j :: 0 <= j < |results| ==> Reports(all, keys[j], results[j])
  }

  /** The per-instrument work of one spawned thread. */
  method BackOne(all: Instruments, k: string) returns (r: BackResult)
    requires AllEvaluable(all) && k in all
    ensures Reports(all, k, r)
    ensures RatioInRange(r)
  {
    ghost var visit: seq<int>;
    r, visit := BackByType(k, all[k]);
    EvaluateSummary(k, all[k], visit);
  }

  /** Joining a batch: each pending result is appended in spawn order and
      added to the running sums, its ratio only when it is not NaN. */
  method Join(pending: seq<BackResult>, results0: seq<BackResult>, valueSum0: real, sucSum0: real)
    returns (results: seq<BackResult>, valueSum: real, sucSum: real)
    requires valueSum0 == Sum(results0, ValueOf) && sucSum0 == Sum(results0, RatioOrZero)
    ensures results == results0 + pending
    ensures valueSum == Sum(results, ValueOf) && sucSum == Sum(results, RatioOrZero)
  {
    results, valueSum, sucSum := results0, valueSum0, sucSum0;
    for j := 0 to |pending|
      invariant results == results0 + pending[..j]
      invariant valueSum == Sum(results, ValueOf) && sucSum == Sum(results, RatioOrZero)
    {
      var result := pending[j];
      Snoc(results, result, ValueOf);
      Snoc(results, result, RatioOrZero);
      valueSum := valueSum + result.value;
      if result.sucRatio.Some? {
        sucSum := sucSum + result.sucRatio.value;
      }
      results := results + [result];
      assert pending[..j + 1] == pending[..j] + [pending[j]];
    }
    assert pending[..|pending|] == pending;
  }

  /** The final result built from the collected results and their sums. */
  method Finish(results: seq<BackResult>, valueSum: real, sucSum: real) returns (f: FinalResult)
    requires valueSum == Sum(results, ValueOf) && sucSum == Sum(results, RatioOrZero)
    ensures f == Aggregate(results)
  {
    var len := |results|;
    if len == 0 {
      f := FinalResult(results, None, None);
    } else {
      f := FinalResult(results, Some(valueSum / (len as real) - 1.0), Some(sucSum / (len as real)));
    }
  }

  /** One iteration of the loop of back_test: spawn the worker for k and,
      when the spawn counter reaches a multiple of THREAD_SIZE, join the
      pending batch. `batches` counts the batches joined so far. */
  method Spawn(all: Instruments, ghost order: seq<string>, i: nat, k: string, conditions: seq<BackResult>,
               resultVec: seq<BackResult>, valueSum: real, sucSum: real, ghost batches: nat)
    returns (conditions': seq<BackResult>, resultVec': seq<BackResult>, valueSum': real, sucSum': real,
             ghost batches': nat)
    requires AllEvaluable(all) && k in all && i == |order|
    requires Counted(i, batches, resultVec, conditions)
    requires ReportsAlong(all, order, resultVec + conditions)
    requires valueSum == Sum(resultVec, ValueOf) && sucSum == Sum(resultVec, RatioOrZero)
    ensures ReportsAlong(all, order + [k], resultVec' + conditions')
    ensures Counted(i + 1, batches', resultVec', conditions')
    ensures valueSum' == Sum(resultVec', ValueOf) && sucSum' == Sum(resultVec', RatioOrZero)
  {
    var r := BackOne(all, k);
    ReportsSnoc(all, order, k, resultVec + conditions, r);
    conditions', resultVec', valueSum', sucSum', batches' :=
      Collect(i, r, conditions, resultVec, valueSum, sucSum, batches);
  }

  /** The bookkeeping of one spawn: r joins the pending batch, and the batch
      is joined when the spawn counter reaches a multiple of THREAD_SIZE. */
  method Collect(i: nat, r: BackResult, conditions: seq<BackResult>,
                 resultVec: seq<BackResult>, valueSum: real, sucSum: real, ghost batches: nat)
    returns (conditions': seq<BackResult>, resultVec': seq<BackResult>, valueSum': real, sucSum': real,
             ghost batches': nat)
    requires Counted(i, batches, resultVec, conditions)
    requires valueSum == Sum(resultVec, ValueOf) && sucSum == Sum(resultVec, RatioOrZero)
    ensures resultVec' + conditions' == resultVec + conditions + [r]
    ensures Counted(i + 1, batches', resultVec', conditions')
    ensures valueSum' == Sum(resultVec', ValueOf) && sucSum' == Sum(resultVec', RatioOrZero)
  {
    CountStep(batches, |conditions|);
    conditions' := conditions + [r];
    if (i + 1) % THREAD_SIZE == 0 {
      resultVec', valueSum', sucSum' := Join(conditions', resultVec, valueSum, sucSum);
      conditions' := [];
      batches' := batches + 1;
      assert resultVec' + conditions' == resultVec';
    } else {
      resultVec', valueSum', sucSum', batches' := resultVec, valueSum, sucSum, batches;
    }
  }

  /** After i spawns, `batches` full batches are joined and the rest is
      pending. */
  predicate Counted(i: nat, batches: nat, resultVec: seq<BackResult>, conditions: seq<BackResult>) {
    && |resultVec| == THREAD_SIZE * batches
    && |resultVec| + |conditions| == i
    && |conditions| < THREAD_SIZE
  }

  /** The spawn counter reaches a multiple of THREAD_SIZE exactly when the
      pending batch fills up. */
  lemma CountStep(batches: nat, pending: nat)
    requires pending < THREAD_SIZE
    ensures (THREAD_SIZE * batches + pending + 1) % THREAD_SIZE == 0 <==> pending + 1 == THREAD_SIZE
  {
    if pending + 1 == THREAD_SIZE {
      assert THREAD_SIZE * batches + pending + 1 == THREAD_SIZE * (batches + 1);
    } else {
      assert THREAD_SIZE * batches + pending + 1 == THREAD_SIZE * batches + (pending + 1);
    }
  }

  /** The collected count after i spawns is the size of the joined batches. */
  lemma CountedCollects(i: nat, batches: nat, resultVec: seq<BackResult>, conditions: seq<BackResult>)
    requires Counted(i, batches, resultVec, conditions)
    ensures |resultVec| == CollectedCount(i)
  {
  }

  lemma ReportsSnoc(all: Instruments, keys: seq<string>, k: string, results: seq<BackResult>, r: BackResult)
    requires |results| == |keys| && ReportsAlong(all, keys, results) && Reports(all, k, r)
    ensures ReportsAlong(all, keys + [k], results + [r])
  {
    forall j | 0 <= j < |results| + 1
      ensures Reports(all, (keys + [k])[j], (results + [r])[j])
    {
      if j < |results| {
        assert (keys + [k])[j] == keys[j] && (results + [r])[j] == results[j];
      }
    }
  }

  /** A prefix of results reports the same keys. */
  lemma ReportsPrefix(all: Instruments, keys: seq<string>, results: seq<BackResult>, rest: seq<BackResult>)
    requires ReportsAlong(all, keys, results + rest)
    ensures ReportsAlong(all, keys, results)
  {
    forall j | 0 <= j < |results|
      ensures Reports(all, keys[j], results[j])
    {
      assert (results + rest)[j] == results[j];
    }
  }

  /** The number of results back_test collects from n instruments: only
      full batches are joined. */
  function CollectedCount(n: nat): (c: nat)
    ensures c <= n && c % THREAD_SIZE == 0
    ensures n - c < THREAD_SIZE
  {
    n - n % THREAD_SIZE
  }

  /** The loop of back_test: one worker is spawned per key of the store, in
      the store's iteration order `order`, and a batch is joined whenever
      the spawn counter reaches a multiple of THREAD_SIZE. What is still
      pending when the keys run out is returned in `conditions`. */
  method SpawnAll(all: Instruments)
    returns (conditions: seq<BackResult>, resultVec: seq<BackResult>, valueSum: real, sucSum: real,
             ghost order: seq<string>, ghost batches: nat)
    requires AllEvaluable(all)
    ensures multiset(order) == multiset(all.Keys) && |order| == |all|
    ensures Counted(|all|, batches, resultVec, conditions)
    ensures ReportsAlong(all, order, resultVec + conditions)
    ensures valueSum == Sum(resultVec, ValueOf) && sucSum == Sum(resultVec, RatioOrZero)
  {
    var i := 0;
    conditions, resultVec := [], [];
    sucSum, valueSum := 0.0, 0.0;
    var remaining := all.Keys;
    batches := 0;
    order := [];
    while remaining != {}
      invariant remaining <= all.Keys
      invariant multiset(order) == multiset(all.Keys - remaining)
      invariant i == |order| && Counted(i, batches, resultVec, conditions)
      invariant ReportsAlong(all, order, resultVec + conditions)
      invariant valueSum == Sum(resultVec, ValueOf) && sucSum == Sum(resultVec, RatioOrZero)
      decreases |remaining|
    {
      NonEmptyHasMember(remaining);
      var k :| k in remaining;
      VisitOne(all.Keys, remaining, order, k);
      conditions, resultVec, valueSum, sucSum, batches :=
        Spawn(all, order, i, k, conditions, resultVec, valueSum, sucSum, batches);
      remaining := remaining - {k};
      order := order + [k];
      i := i + 1;
    }
    CountOfKeys(all, order);
  }

  /** back_test as written: the workers of a batch are joined when the
      spawn counter reaches a multiple of THREAD_SIZE, and a trailing
      partial batch is never joined. `order` is the iteration order of the
      store. */
  method BackTest(all: Instruments) returns (f: FinalResult, ghost order: seq<string>)
    requires AllEvaluable(all)
    ensures multiset(order) == multiset(all.Keys)
    ensures |f.results| == CollectedCount(|all|)
    ensures ReportsAlong(all, order, f.results)
    ensures f == Aggregate(f.results)
  {
    var conditions, resultVec, valueSum, sucSum;
    ghost var batches;
    conditions, resultVec, valueSum, sucSum, order, batches := SpawnAll(all);
    CountedCollects(|all|, batches, resultVec, conditions);
    ReportsPrefix(all, order, resultVec, conditions);
    f := Finish(resultVec, valueSum, sucSum);
  }

  /** A store whose size is not a multiple of THREAD_SIZE loses results:
      nine instruments give eight, seven give none. */
  lemma TrailingBatchDropped(n: nat)
    requires n % THREAD_SIZE != 0
    ensures CollectedCount(n) < n
    ensures CollectedCount(9) == 8 && CollectedCount(7) == 0
  {
  }

  // ---------------------------------------------------------------------
  // Every instrument collected

  /** The value of instrument k. */
  ghost function ValueIn(all: Instruments): string -> real {
    k => InstrumentSummary(all, k).value
  }

  /** The ratio of instrument k, 0.0 for NaN. */
  ghost function RatioIn(all: Instruments): string -> real {
    k => var q := InstrumentSummary(all, k).sucRatio; if q.Some? then q.value else 0.0
  }

  /** The averages over every instrument of the store, whatever the order
      of the store. */
  ghost function ExpectedAvgProfit(all: Instruments): Option<real>
  {
    LessOne(Mean(Sum(SomeOrder(all.Keys), ValueIn(all)), |all|))
  }

  ghost function ExpectedAvgSuccess(all: Instruments): Option<real>
  {
    Mean(Sum(SomeOrder(all.Keys), RatioIn(all)), |all|)
  }

  /** The sums over results that report a sequence of keys are the sums
      over those keys. */
  lemma ReportsSums(all: Instruments, keys: seq<string>, results: seq<BackResult>)
    requires |results| == |keys| && ReportsAlong(all, keys, results)
    ensures Sum(results, ValueOf) == Sum(keys, ValueIn(all))
    ensures Sum(results, RatioOrZero) == Sum(keys, RatioIn(all))
  {
    forall j | 0 <= j < |results|
      ensures ValueOf(results[j]) == ValueIn(all)(keys[j])
      ensures RatioOrZero(results[j]) == RatioIn(all)(keys[j])
    {
      assert SummaryOf(results[j]) == InstrumentSummary(all, keys[j]);
    }
    SumAlong(results, keys, ValueOf, ValueIn(all));
    SumAlong(results, keys, RatioOrZero, RatioIn(all));
  }

  /** Results that report every key of the store, in any order, average to
      the store's expected averages. */
  lemma AggregateOfReports(all: Instruments, order: seq<string>, results: seq<BackResult>)
    requires multiset(order) == multiset(all.Keys)
    requires |results| == |order| && ReportsAlong(all, order, results)
    ensures Aggregate(results).avgProfit == ExpectedAvgProfit(all)
    ensures Aggregate(results).sucRatio == ExpectedAvgSuccess(all)
  {
    assert |results| == |all| by {
      CountOfKeys(all, order);
    }
    assert Sum(results, ValueOf) == Sum(SomeOrder(all.Keys), ValueIn(all)) by {
      ReportsSums(all, order, results);
      SumPermutation(order, SomeOrder(all.Keys), ValueIn(all));
    }
    assert Sum(results, RatioOrZero) == Sum(SomeOrder(all.Keys), RatioIn(all)) by {
      ReportsSums(all, order, results);
      SumPermutation(order, SomeOrder(all.Keys), RatioIn(all));
    }
  }

  lemma CountOfKeys<K>(all: map<K, Prices>, order: seq<K>)
    requires multiset(order) == multiset(all.Keys)
    ensures |order| == |all|
  {
    assert |order| == |multiset(all.Keys)|;
  }

  /** back_test with the trailing batch joined after the loop: every
      instrument is collected and the averages are over the whole store. */
  method BackTestAll(all: Instruments) returns (f: FinalResult, ghost order: seq<string>)
    requires AllEvaluable(all)
    ensures multiset(order) == multiset(all.Keys)
    ensures |f.results| == |all|
    ensures ReportsAlong(all, order, f.results)
    ensures f == Aggregate(f.results)
    ensures f.avgProfit == ExpectedAvgProfit(all) && f.sucRatio == ExpectedAvgSuccess(all)
  {
    var conditions, resultVec, valueSum, sucSum;
    ghost var batches;
    conditions, resultVec, valueSum, sucSum, order, batches := SpawnAll(all);
    resultVec, valueSum, sucSum := Join(conditions, resultVec, valueSum, sucSum);
    f := Finish(resultVec, valueSum, sucSum);
    AggregateOfReports(all, order, resultVec);
  }

  // ---------------------------------------------------------------------
  // The program

  /** main without its output: the store that extract fills from the
      decoded members, read by `parse::<f64>`, is backtested as written. */
  method Run(contents: seq<string>, parse: string -> real) returns (f: FinalResult, ghost order: seq<string>)
    requires forall i :: 0 <= i < |contents| ==> LinesWellFormed(Split(contents[i], '\n'))
    ensures multiset(order) == multiset(FileSamples(map[], AllSamples(contents)).Keys)
    ensures multiset(order) == multiset(Ids(AllSamples(contents)))
    ensures |f.results| == CollectedCount(|FileSamples(map[], AllSamples(contents))|)
    ensures ReportsAlong(Parsed(FileSamples(map[], AllSamples(contents)), parse), order, f.results)
    ensures f == Aggregate(f.results)
  {
    var store := Extract(contents);
    FileSamplesKeys(map[], AllSamples(contents));
    var all := Parsed(store, parse);
    ParsedEvaluable(store, parse);
    assert |all| == |all.Keys| == |store.Keys| == |store|;
    f, order := BackTest(all);
  }
}
