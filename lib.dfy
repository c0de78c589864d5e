/** The constants of src/lib.rs: the backtest epoch, 2021-06-23 00:00:00
    UTC+8, in epoch milliseconds, and the length of a minute. */
module Config {
  const BASE_TIME: int := 1624377600000
  const MILLIS_IN_MIN: int := 60000

  /** The epoch falls on a whole minute, so minute offset 0 starts on a
      minute boundary of the wall clock. */
  lemma EpochAligned()
    ensures BASE_TIME % MILLIS_IN_MIN == 0
    ensures BASE_TIME == 27072960 * MILLIS_IN_MIN
  {
  }
}

/** The records of src/lib.rs: a minute sample, a simulated deal, the result
    of one instrument and the final result. Rust's constructors (`new`) and
    accessors are the datatype constructors and destructors; f64 amounts are
    reals, and an f64 that may be NaN is an Option<real> whose None is NaN. */
module Records {
  import opened Wrappers
  import opened Text

  /** The instrument key `exchange_id-pre_coin-post_coin`, the one format
      shared by MinData::get_id and Deal::get_id. */
  function Key(exchangeId: string, preCoin: string, postCoin: string): (k: string)
    ensures |k| == |exchangeId| + |preCoin| + |postCoin| + 2
  {
    exchangeId + "-" + preCoin + "-" + postCoin
  }

  /** One minute sample: its price text and its minute offset from the epoch. */
  datatype MinData = MinData(price: string, time: int, exchangeId: string, preCoin: string, postCoin: string)
  {
    function Id(): (id: string)
      ensures '-' !in exchangeId && '-' !in preCoin && '-' !in postCoin ==>
        Split(id, '-') == [exchangeId, preCoin, postCoin]
    {
      if '-' !in exchangeId && '-' !in preCoin && '-' !in postCoin then
        KeySplitRoundTrip(exchangeId, preCoin, postCoin);
        Key(exchangeId, preCoin, postCoin)
      else
        Key(exchangeId, preCoin, postCoin)
    }
  }

  /** One simulated buy/sell pair; times are minute offsets. */
  datatype Deal = Deal(buyPrice: real, sellPrice: real, buyTime: int, sellTime: int,
                       exchangeId: string, preCoin: string, postCoin: string, profit: real)
  {
    function Id(): (id: string)
      ensures '-' !in exchangeId && '-' !in preCoin && '-' !in postCoin ==>
        Split(id, '-') == [exchangeId, preCoin, postCoin]
    {
      if '-' !in exchangeId && '-' !in preCoin && '-' !in postCoin then
        KeySplitRoundTrip(exchangeId, preCoin, postCoin);
        Key(exchangeId, preCoin, postCoin)
      else
        Key(exchangeId, preCoin, postCoin)
    }
  }

  /** The result of backtesting one instrument. `sucRatio` is None when the
      source computes 0.0 / 0.0. */
  datatype BackResult = BackResult(id: string, deals: seq<Deal>, value: real, sucRatio: Option<real>)

  /** The aggregate over all collected results; None stands for NaN. */
  datatype FinalResult = FinalResult(results: seq<BackResult>, avgProfit: Option<real>, sucRatio: Option<real>)

  /** A key with no '-' inside its components splits back into exactly them:
      the inverse that the deal construction relies on. */
  lemma KeySplitRoundTrip(exchangeId: string, preCoin: string, postCoin: string)
    requires '-' !in exchangeId && '-' !in preCoin && '-' !in postCoin
    ensures Split(Key(exchangeId, preCoin, postCoin), '-') == [exchangeId, preCoin, postCoin]
  {
    var parts := [exchangeId, preCoin, postCoin];
    assert parts[1..] == [preCoin, postCoin] && parts[1..][1..] == [postCoin];
    assert JoinWith(parts[1..], '-') == preCoin + ['-'] + postCoin;
    assert Key(exchangeId, preCoin, postCoin) == JoinWith(parts, '-');
    SplitJoin(parts, '-');
  }

  /** Whatever its components hold, a key splits into at least three pieces,
      so taking pieces 0, 1 and 2 never fails on a key built by Key. */
  lemma KeyHasThreePieces(exchangeId: string, preCoin: string, postCoin: string)
    ensures |Split(Key(exchangeId, preCoin, postCoin), '-')| >= 3
  {
    assert Key(exchangeId, preCoin, postCoin) == exchangeId + ['-'] + (preCoin + ['-'] + postCoin);
    SplitAppend(exchangeId, preCoin + ['-'] + postCoin, '-');
    SplitAppend(preCoin, postCoin, '-');
  }

  /** A '-' inside a component breaks the round trip: the exchange id
      "a-b" comes back as "a". */
  lemma KeySplitFailsOnDash()
    ensures Split(Key("a-b", "c", "d"), '-') == ["a", "b", "c", "d"]
  {
    assert Key("a-b", "c", "d") == "a" + ['-'] + ("b" + ['-'] + ("c" + ['-'] + "d"));
    SplitAppend("a", "b" + ['-'] + ("c" + ['-'] + "d"), '-');
    SplitAppend("b", "c" + ['-'] + "d", '-');
    SplitAppend("c", "d", '-');
    SplitNoSeparator("a", '-');
    SplitNoSeparator("b", '-');
    SplitNoSeparator("c", '-');
    SplitNoSeparator("d", '-');
  }

  /** A deal and a minute sample built from the same three components carry
      the same id. */
  lemma DealIdMatchesSampleId(d: Deal, m: MinData)
    requires d.exchangeId == m.exchangeId && d.preCoin == m.preCoin && d.postCoin == m.postCoin
    ensures d.Id() == m.Id()
    ensures |d.Id()| == |m.exchangeId| + |m.preCoin| + |m.postCoin| + 2
  {
  }
}
