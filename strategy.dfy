/** The per-instrument strategy of src/main.rs (`back_by_type`): for every
    offset t of a series, a rise of at least 1% from t to t + 1 buys at t + 1
    and sells at t + 2 when t + 2 is present. Prices are the parsed values of
    the series' price texts, taken as exact reals. */
module Strategy {
  import opened Wrappers
  import opened Text
  import opened Folds
  import opened Orders
  import opened Records

  /** Minute offset -> parsed price. */
  type Prices = map<int, real>

  /** `sp / fp >= 1.01` in f64, written without the division: with fp == 0
      the quotient is +inf when sp > 0 and NaN or -inf otherwise. */
  function Signal(fp: real, sp: real): (fires: bool)
    ensures fp == 0.0 ==> (fires <==> sp > 0.0)
    ensures fp > 0.0 && fires ==> sp > fp
  {
    if fp > 0.0 then sp >= 1.01 * fp
    else if fp < 0.0 then sp <= 1.01 * fp
    else sp > 0.0
  }

  /** Away from a zero divisor, Signal is the quotient test itself. */
  lemma SignalIsQuotientTest(fp: real, sp: real)
    requires fp != 0.0
    ensures Signal(fp, sp) <==> sp / fp >= 1.01
  {
    if fp > 0.0 {
      assert sp / fp >= 1.01 <==> sp >= 1.01 * fp;
    } else {
      assert sp / fp >= 1.01 <==> sp <= 1.01 * fp;
    }
  }

  /** A signal never fires on a zero buy price, so the profit's division is
      defined. */
  lemma SignalBuyPriceNonZero(fp: real, sp: real)
    requires Signal(fp, sp)
    ensures sp != 0.0
  {
  }

  /** The offsets at which a deal is made: t, t + 1 and t + 2 present and a
      signal from t to t + 1. */
  function SignalTimes(v: Prices): (ts: set<int>)
    ensures ts <= v.Keys
    ensures forall t :: t in ts ==> t + 1 in v && t + 2 in v
  {
    set t | t in v && Fires(v, t)
  }

  predicate Fires(v: Prices, t: int) {
    t in v && t + 1 in v && t + 2 in v && Signal(v[t], v[t + 1])
  }

  /** The key splits into at least three pieces; the source takes pieces 0, 1
      and 2 with `unwrap` when it builds a deal. */
  predicate HasDealPieces(k: string) {
    |Split(k, '-')| >= 3
  }

  /** back_by_type does not panic: either no deal is made or the key has the
      pieces a deal needs. */
  predicate Evaluable(k: string, v: Prices) {
    SignalTimes(v) == {} || HasDealPieces(k)
  }

  /** The deal made at signal offset t. */
  function DealAt(k: string, v: Prices, t: int): (d: Deal)
    requires Fires(v, t) && Evaluable(k, v)
    ensures d.buyTime == t + 1 && d.sellTime == d.buyTime + 1
    ensures d.buyPrice == v[t + 1] && d.sellPrice == v[t + 2]
    ensures d.buyPrice != 0.0
  {
    assert t in SignalTimes(v);
    var parts := Split(k, '-');
    var sp, tp := v[t + 1], v[t + 2];
    SignalBuyPriceNonZero(v[t], sp);
    Deal(sp, tp, t + 1, t + 2, parts[0], parts[1], parts[2], tp / sp - 1.0)
  }

  /** The profit is the relative change from the buy to the sell price. */
  lemma DealProfit(k: string, v: Prices, t: int)
    requires Fires(v, t) && Evaluable(k, v)
    ensures var d := DealAt(k, v, t); d.buyPrice * (1.0 + d.profit) == d.sellPrice
  {
    var d := DealAt(k, v, t);
    assert 1.0 + d.profit == d.sellPrice / d.buyPrice;
  }

  /** With a positive buy price, a deal succeeds (profit >= 0) exactly when it
      does not sell below its buy price. */
  lemma DealSucceedsIffNoLoss(k: string, v: Prices, t: int)
    requires Fires(v, t) && Evaluable(k, v)
    requires v[t + 1] > 0.0
    ensures DealAt(k, v, t).profit >= 0.0 <==> v[t + 2] >= v[t + 1]
  {
    QuotientAtLeastOne(v[t + 2], v[t + 1]);
  }

  lemma QuotientAtLeastOne(a: real, b: real)
    requires b > 0.0
    ensures a / b >= 1.0 <==> a >= b
  {
    assert (a / b) * b == a;
    if a / b >= 1.0 {
      assert (a / b) * b >= 1.0 * b;
    } else {
      assert (a / b) * b < 1.0 * b;
    }
  }

  /** The deal's exchange and coins are the key's components when none of
      them holds a '-', so the deal carries the instrument's own id. */
  lemma DealCarriesInstrumentId(exchangeId: string, preCoin: string, postCoin: string, v: Prices, t: int)
    requires '-' !in exchangeId && '-' !in preCoin && '-' !in postCoin
    requires Fires(v, t)
    ensures Evaluable(Key(exchangeId, preCoin, postCoin), v)
    ensures var d := DealAt(Key(exchangeId, preCoin, postCoin), v, t);
      d.exchangeId == exchangeId && d.preCoin == preCoin && d.postCoin == postCoin &&
      d.Id() == Key(exchangeId, preCoin, postCoin)
  {
    KeySplitRoundTrip(exchangeId, preCoin, postCoin);
  }

  /** The growth factor of one deal. */
  function Growth(d: Deal): (g: real)
    ensures g >= 1.0 <==> d.profit >= 0.0
  {
    1.0 + d.profit
  }

  /** 1.0 for a deal with non-negative profit, 0.0 otherwise. */
  function Success(d: Deal): (s: real)
    ensures s == 0.0 || s == 1.0
    ensures s == 1.0 <==> Growth(d) >= 1.0
  {
    if d.profit >= 0.0 then 1.0 else 0.0
  }

  /** The value multiplier: the product of the deals' growth factors. */
  function Value(deals: seq<Deal>): (value: real)
    ensures deals == [] ==> value == 1.0
    ensures |deals| == 1 ==> value == Growth(deals[0])
  {
    if |deals| == 1 then
      SingletonProduct(deals[0], Growth);
      assert deals == [deals[0]];
      Product(deals, Growth)
    else
      Product(deals, Growth)
  }

  /** The number of successful deals (an f64 count in the source). */
  function SuccessCount(deals: seq<Deal>): (count: real)
    ensures deals == [] ==> count == 0.0
  {
    Sum(deals, Success)
  }

  /** No more successes than deals. */
  lemma {:induction false} SuccessCountBounded(deals: seq<Deal>)
    ensures 0.0 <= SuccessCount(deals) <= |deals| as real
    decreases |deals|
  {
    if |deals| > 0 {
      SuccessCountBounded(deals[..|deals| - 1]);
    }
  }

  /** `suc_cnt / len` in f64 behind the source's guard `len >= 0`, which
      every length passes: 0.0 / 0.0 is NaN (None). */
  function SuccessRatio(suc: real, len: nat): (r: Option<real>)
    ensures r.Some? <==> len > 0
    ensures r.Some? && 0.0 <= suc <= len as real ==> 0.0 <= r.value <= 1.0
  {
    if len == 0 then None else Some(suc / len as real)
  }

  // ---------------------------------------------------------------------
  // One visit order

  /** The offsets of `order` at which a deal is made, in visit order. */
  function Firing(v: Prices, order: seq<int>): (ts: seq<int>)
    ensures |ts| <= |order|
    decreases |order|
  {
    if |order| == 0 then []
    else
      var t := order[|order| - 1];
      var init := Firing(v, order[..|order| - 1]);
      if Fires(v, t) then init + [t] else init
  }

  /** The deals back_by_type makes when it visits the offsets in `order`: one
      per firing offset, in the same order. */
  function DealsAlong(k: string, v: Prices, order: seq<int>): (ds: seq<Deal>)
    requires Evaluable(k, v)
    ensures |ds| == |Firing(v, order)|
    decreases |order|
  {
    if |order| == 0 then []
    else
      var t := order[|order| - 1];
      var init := DealsAlong(k, v, order[..|order| - 1]);
      if Fires(v, t) then init + [DealAt(k, v, t)] else init
  }

  /** What back_by_type returns when the map yields its offsets in `order`. */
  function Evaluate(k: string, v: Prices, order: seq<int>): (r: BackResult)
    requires Evaluable(k, v)
    ensures r.id == k && |r.deals| <= |order|
    ensures r.value == Value(r.deals) && (r.deals == [] ==> r.value == 1.0)
    ensures r.sucRatio.None? <==> r.deals == []
    ensures r.sucRatio.Some? ==> 0.0 <= r.sucRatio.value <= 1.0
  {
    var deals := DealsAlong(k, v, order);
    SuccessCountBounded(deals);
    BackResult(k, deals, Value(deals), SuccessRatio(SuccessCount(deals), |deals|))
  }

  /** d is the deal of a firing offset, the one just before its buy time. */
  predicate MadeAt(k: string, v: Prices, d: Deal) {
    Evaluable(k, v) && Fires(v, d.buyTime - 1) && d == DealAt(k, v, d.buyTime - 1)
  }

  /** Visiting t adds the deal d exactly when d is the deal made at t. */
  lemma MadeAtVisit(k: string, v: Prices, t: int, d: Deal)
    requires Evaluable(k, v)
    ensures (Fires(v, t) && d == DealAt(k, v, t)) <==> (MadeAt(k, v, d) && d.buyTime - 1 == t)
  {
  }

  /** Each deal occurs as often as its offset is visited, if it is the deal of
      a firing offset, and not at all otherwise. */
  lemma {:induction false} DealsAlongCounts(k: string, v: Prices, order: seq<int>)
    requires Evaluable(k, v)
    ensures forall d ::
              multiset(DealsAlong(k, v, order))[d] ==
              if MadeAt(k, v, d) then multiset(order)[d.buyTime - 1] else 0
    decreases |order|
  {
    if |order| > 0 {
      var init, t := Last(order);
      DealsAlongCounts(k, v, init);
      forall d
        ensures multiset(DealsAlong(k, v, order))[d] ==
          if MadeAt(k, v, d) then multiset(order)[d.buyTime - 1] else 0
      {
        MadeAtVisit(k, v, t, d);
      }
    }
  }

  /** Each offset is firing-visited as often as it is visited, if it fires. */
  lemma {:induction false} FiringCounts(v: Prices, order: seq<int>)
    ensures forall t ::
              multiset(Firing(v, order))[t] ==
              if Fires(v, t) then multiset(order)[t] else 0
    decreases |order|
  {
    if |order| > 0 {
      var init, t := Last(order);
      FiringCounts(v, init);
    }
  }

  // ---------------------------------------------------------------------
  // Every visit order

  /** `order` visits every offset of the series once: the iteration of a
      map in some order. */
  predicate Enumerates(order: seq<int>, v: Prices) {
    multiset(order) == multiset(v.Keys)
  }

  /** A visit of every offset once makes one deal per signal offset, the deal
      of that offset, and nothing else. */
  lemma EvaluateExactly(k: string, v: Prices, order: seq<int>)
    requires Evaluable(k, v) && Enumerates(order, v)
    ensures var ds := DealsAlong(k, v, order);
      && |ds| == |SignalTimes(v)|
      && (forall t :: t in SignalTimes(v) ==> multiset(ds)[DealAt(k, v, t)] == 1)
      && (forall d :: d in ds ==> MadeAt(k, v, d) && d.buyTime - 1 in SignalTimes(v))
  {
    var ds := DealsAlong(k, v, order);
    DealsAlongCounts(k, v, order);
    FiringCounts(v, order);
    assert multiset(Firing(v, order)) == multiset(SignalTimes(v)) by {
      forall t
        ensures multiset(Firing(v, order))[t] == multiset(SignalTimes(v))[t]
      {
        assert t in SignalTimes(v) <==> t in v && Fires(v, t);
      }
    }
    assert |Firing(v, order)| == |multiset(Firing(v, order))|;
    forall t | t in SignalTimes(v)
      ensures multiset(ds)[DealAt(k, v, t)] == 1
    {
      assert MadeAt(k, v, DealAt(k, v, t));
    }
    forall d | d in ds
      ensures MadeAt(k, v, d) && d.buyTime - 1 in SignalTimes(v)
    {
      assert multiset(ds)[d] > 0;
    }
  }

  /** The iteration order of the series changes the order of the deals only,
      so the value and the success ratio do not depend on it. */
  lemma EvaluationOrderIndependent(k: string, v: Prices, o1: seq<int>, o2: seq<int>)
    requires Evaluable(k, v) && multiset(o1) == multiset(o2)
    ensures multiset(Evaluate(k, v, o1).deals) == multiset(Evaluate(k, v, o2).deals)
    ensures Evaluate(k, v, o1).value == Evaluate(k, v, o2).value
    ensures Evaluate(k, v, o1).sucRatio == Evaluate(k, v, o2).sucRatio
  {
    var d1, d2 := DealsAlong(k, v, o1), DealsAlong(k, v, o2);
    DealsAlongCounts(k, v, o1);
    DealsAlongCounts(k, v, o2);
    assert multiset(d1) == multiset(d2) by {
      forall d
        ensures multiset(d1)[d] == multiset(d2)[d]
      {
      }
    }
    assert |d1| == |multiset(d1)| == |multiset(d2)| == |d2|;
    ProductPermutation(d1, d2, Growth);
    SumPermutation(d1, d2, Success);
  }

  /** The deals of an instrument, up to their order. */
  ghost function InstrumentDeals(k: string, v: Prices): seq<Deal>
    requires Evaluable(k, v)
  {
    DealsAlong(k, v, SomeOrder(v.Keys))
  }

  /** The value of an instrument, whatever the visit order. */
  ghost function InstrumentValue(k: string, v: Prices): real
    requires Evaluable(k, v)
  {
    Evaluate(k, v, SomeOrder(v.Keys)).value
  }

  /** The success ratio of an instrument, whatever the visit order. */
  ghost function InstrumentRatio(k: string, v: Prices): Option<real>
    requires Evaluable(k, v)
  {
    Evaluate(k, v, SomeOrder(v.Keys)).sucRatio
  }

  // ---------------------------------------------------------------------
  // back_by_type

  /** The loop of back_by_type over the series, in whatever order the map
      yields its offsets; `order` records that order. */
  method BackByType(k: string, v: Prices) returns (r: BackResult, ghost order: seq<int>)
    requires Evaluable(k, v)
    ensures Enumerates(order, v) && r == Evaluate(k, v, order)
    ensures r.id == k && multiset(r.deals) == multiset(InstrumentDeals(k, v))
    ensures r.value == InstrumentValue(k, v) && r.sucRatio == InstrumentRatio(k, v)
  {
    var dealVec: seq<Deal> := [];
    var value := 1.0;
    var sucCnt := 0.0;
    var remaining := v.Keys;
    order := [];
    while remaining != {}
      invariant remaining <= v.Keys
      invariant multiset(order) == multiset(v.Keys - remaining)
      invariant dealVec == DealsAlong(k, v, order)
      invariant value == Value(dealVec) && sucCnt == SuccessCount(dealVec)
      decreases |remaining|
    {
      var t :| t in remaining;
      VisitOne(v.Keys, remaining, order, t);
      DealsAlongSnoc(k, v, order, t);
      remaining := remaining - {t};
      order := order + [t];
      dealVec, value, sucCnt := VisitOffset(k, v, t, dealVec, value, sucCnt);
    }
    var len := |dealVec|;
    r := BackResult(k, dealVec, value, SuccessRatio(sucCnt, len));
    assert remaining == {} && v.Keys - remaining == v.Keys;
    EvaluateSummary(k, v, order);
  }

  /** What holds of the result of any visit of every offset once. */
  lemma EvaluateSummary(k: string, v: Prices, order: seq<int>)
    requires Evaluable(k, v) && Enumerates(order, v)
    ensures var r := Evaluate(k, v, order);
      && multiset(r.deals) == multiset(InstrumentDeals(k, v))
      && r.value == InstrumentValue(k, v) && r.sucRatio == InstrumentRatio(k, v)
      && |r.deals| == |SignalTimes(v)| <= |v|
      && (r.sucRatio.Some? ==> 0.0 <= r.sucRatio.value <= 1.0)
      && (r.deals == [] ==> r.value == 1.0 && r.sucRatio == None)
  {
    EvaluateExactly(k, v, order);
    EvaluationOrderIndependent(k, v, order, SomeOrder(v.Keys));
    SuccessCountBounded(DealsAlong(k, v, order));
    SubsetSize(SignalTimes(v), v.Keys);
  }

  /** One pass of the loop body of back_by_type: the deal at t, if the price
      rises by 1% from t to t + 1 and t + 2 is present. */
  method VisitOffset(k: string, v: Prices, t: int, dealVec: seq<Deal>, value: real, sucCnt: real)
    returns (dealVec': seq<Deal>, value': real, sucCnt': real)
    requires Evaluable(k, v) && t in v
    requires value == Value(dealVec) && sucCnt == SuccessCount(dealVec)
    ensures dealVec' == if Fires(v, t) then dealVec + [DealAt(k, v, t)] else dealVec
    ensures value' == Value(dealVec') && sucCnt' == SuccessCount(dealVec')
  {
    dealVec', value', sucCnt' := dealVec, value, sucCnt;
    var fp := v[t];
    if t + 1 in v {
      var sp := v[t + 1];
      if Signal(fp, sp) {
        if t + 2 in v {
          var tp := v[t + 2];
          SignalBuyPriceNonZero(fp, sp);
          var profit := tp / sp - 1.0;
          var source := Split(k, '-');
          assert t in SignalTimes(v);
          var deal := Deal(sp, tp, t + 1, t + 2, source[0], source[1], source[2], profit);
          TotalsSnoc(dealVec, deal, value, sucCnt);
          value' := value * (1.0 + profit);
          if profit >= 0.0 {
            sucCnt' := sucCnt + 1.0;
          }
          dealVec' := dealVec + [deal];
        }
      }
    }
  }

  /** Visiting one more offset appends its deal, if it makes one. */
  lemma DealsAlongSnoc(k: string, v: Prices, order: seq<int>, t: int)
    requires Evaluable(k, v)
    ensures DealsAlong(k, v, order + [t]) ==
            if Fires(v, t) then DealsAlong(k, v, order) + [DealAt(k, v, t)] else DealsAlong(k, v, order)
  {
    assert (order + [t])[..|order|] == order;
  }

  /** The running totals stay the totals of the deals made so far. */
  lemma TotalsSnoc(deals: seq<Deal>, d: Deal, value: real, sucCnt: real)
    requires value == Value(deals) && sucCnt == SuccessCount(deals)
    ensures value * Growth(d) == Value(deals + [d])
    ensures sucCnt + Success(d) == SuccessCount(deals + [d])
  {
    ValueSnoc(deals, d);
  }

  /** The running updates of the value and the success count. */
  lemma ValueSnoc(deals: seq<Deal>, d: Deal)
    ensures Value(deals + [d]) == Value(deals) * Growth(d)
    ensures SuccessCount(deals + [d]) == SuccessCount(deals) + Success(d)
  {
    Snoc(deals, d, Growth);
    Snoc(deals, d, Success);
  }

  // ---------------------------------------------------------------------
  // Scenarios

  /** The series {10: 1.00, 11: 1.02, 12: 0.99}. */
  function LosingSeries(): Prices {
    map[10 := 1.00, 11 := 1.02, 12 := 0.99]
  }

  /** Visited as 12, 10, 11, the series makes one deal: the rise at 10 buys
      at 1.02 at minute 11 and sells at 0.99 at minute 12. */
  lemma LosingSeriesDeals(k: string)
    requires HasDealPieces(k)
    ensures var d := DealAt(k, LosingSeries(), 10);
      && DealsAlong(k, LosingSeries(), [12, 10, 11]) == [d]
      && d.buyTime == 11 && d.sellTime == 12 && d.buyPrice == 1.02 && d.sellPrice == 0.99
      && d.profit == 0.99 / 1.02 - 1.0
  {
    var v, order := LosingSeries(), [12, 10, 11];
    assert Fires(v, 10) && !Fires(v, 11) && !Fires(v, 12);
    assert order[..2] == [12, 10] && order[..2][..1] == [12] && order[..1][..0] == [];
  }

  /** The loss makes the value 0.99 / 1.02 and the success ratio 0, in any
      visit order. */
  lemma OneLosingDeal(k: string)
    requires HasDealPieces(k)
    ensures var r := Evaluate(k, LosingSeries(), [12, 10, 11]);
      && |r.deals| == 1
      && r.value == 0.99 / 1.02 && r.sucRatio == Some(0.0)
      && InstrumentValue(k, LosingSeries()) == r.value
      && InstrumentRatio(k, LosingSeries()) == r.sucRatio
  {
    var v, order := LosingSeries(), [12, 10, 11];
    LosingSeriesDeals(k);
    var d := DealAt(k, v, 10);
    SingletonProduct(d, Growth);
    SingletonProduct(d, Success);
    assert multiset(order) == multiset(v.Keys) by {
      assert v.Keys == {10, 11, 12};
    }
    EvaluationOrderIndependent(k, v, order, SomeOrder(v.Keys));
  }

  /** {5: 1.00, 6: 1.00}: no 1% rise, so no deal, value 1.0 and a NaN ratio,
      in either visit order. */
  lemma FlatSeriesNoDeal(k: string)
    ensures var v := map[5 := 1.00, 6 := 1.00];
      && Evaluable(k, v)
      && Evaluate(k, v, [5, 6]) == BackResult(k, [], 1.0, None)
      && Evaluate(k, v, [6, 5]) == BackResult(k, [], 1.0, None)
  {
    var v := map[5 := 1.00, 6 := 1.00];
    assert !Fires(v, 5) && !Fires(v, 6);
    assert SignalTimes(v) == {};
    assert [5, 6][..1] == [5] && [6, 5][..1] == [6];
  }
}
