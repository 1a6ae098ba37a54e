/** The per-minute candle job. At the start of every minute it builds, for
    each symbol, the 1m bar of the minute just ended from that minute's
    trades. At five-minute and hourly boundaries it also reduces the stored
    1m bars into a 5m or a 1h bar.

    The repository queries become function parameters: the trades of a
    symbol in [from, to], the latest stored bar before an instant, and the
    stored 1m bars in [from, to]. The clock is the parameter `nowSeconds`. */
module MarketDataService {
  import opened Util
  import opened Model
  import opened Candles

  const SYMBOLS: seq<string> := ["BTCUSDT", "ETHUSDT"]

  function Prices(trades: seq<TradeRecord>): seq<real>
  {
    seq(|trades|, i requires 0 <= i < |trades| => trades[i].price)
  }

  function Quantities(trades: seq<TradeRecord>): seq<real>
  {
    seq(|trades|, i requires 0 <= i < |trades| => trades[i].quantity)
  }

  /** A minute without trades repeats the previous close as a flat bar, or
      yields nothing when there is no previous bar. */
  function HandleNoDataSituation(symbol: string, startTime: int, previous: Option<MarketData>): (r: Option<MarketData>)
    ensures r.None? <==> previous.None?
    ensures r.Some? ==>
              r.value.open == previous.value.close && r.value.high == previous.value.close
              && r.value.low == previous.value.close && r.value.close == previous.value.close
              && r.value.volume == 0.0 && WellFormed(r.value)
    ensures r.Some? ==> r.value.symbol == symbol && r.value.timeFrame == "1m" && r.value.timestamp == startTime
  {
    match previous
    case None => None
    case Some(p) => Some(MarketData(symbol, "1m", startTime, p.close, p.close, p.close, p.close, 0.0))
  }

  /** The 1m bar starting at `startTime`. With trades: open is the previous
      bar's close (zero without one), close the last trade's price, high and
      low the extreme prices, volume the summed quantity. */
  function AggregateOneMinuteData(symbol: string, startTime: int, trades: seq<TradeRecord>,
                                  previous: Option<MarketData>): Option<MarketData>
  {
    if trades == [] then HandleNoDataSituation(symbol, startTime, previous)
    else
      var open := if previous.Some? then previous.value.close else 0.0;
      Some(MarketData(symbol, "1m", startTime, open, MaxOf(Prices(trades)), MinOf(Prices(trades)),
                      trades[|trades| - 1].price, SumOf(Quantities(trades))))
  }

  /** With trades, the bar spans every trade price, its high and low are
      trade prices, and its close is the last price, so it lies in range. */
  lemma OneMinuteBarWithTrades(symbol: string, startTime: int, trades: seq<TradeRecord>, previous: Option<MarketData>)
    requires trades != []
    ensures var r := AggregateOneMinuteData(symbol, startTime, trades, previous);
            r.Some? && r.value.timeFrame == "1m" && r.value.timestamp == startTime
            && r.value.open == (if previous.Some? then previous.value.close else 0.0)
            && r.value.close == trades[|trades| - 1].price
            && (forall i :: 0 <= i < |trades| ==> r.value.low <= trades[i].price <= r.value.high)
            && (exists i :: 0 <= i < |trades| && trades[i].price == r.value.high)
            && (exists j :: 0 <= j < |trades| && trades[j].price == r.value.low)
            && CloseInRange(r.value)
  {
    var ps := Prices(trades);
    assert forall i :: 0 <= i < |trades| ==> ps[i] == trades[i].price;
    var hi := MaxOf(ps);
    var lo := MinOf(ps);
    var i :| 0 <= i < |ps| && ps[i] == hi;
    var j :| 0 <= j < |ps| && ps[j] == lo;
    assert trades[i].price == hi && trades[j].price == lo;
  }

  /** The open is not tied to the range: a previous close of 100 and a single
      trade at 50 give a bar opening above its high. */
  lemma OpenOutsideRange()
    ensures var trade := TradeRecord(1, SampleOrder(), SampleOrder(), "BTCUSDT", 50.0, 1.0, 0, "buy", "o");
            var r := AggregateOneMinuteData("BTCUSDT", 0, [trade],
                                            Some(MarketData("BTCUSDT", "1m", -60, 100.0, 100.0, 100.0, 100.0, 1.0)));
            r.Some? && r.value.open > r.value.high && !WellFormed(r.value)
  {
    var trade := TradeRecord(1, SampleOrder(), SampleOrder(), "BTCUSDT", 50.0, 1.0, 0, "buy", "o");
    assert Prices([trade]) == [50.0];
  }

  function SampleOrder(): OrderRecord
  {
    OrderRecord("o", "u", "BTCUSDT", None, 1.0, 0.0, 1.0, BUY, MARKET, PENDING, None, None, 0, 0, 0)
  }

  /** The 5m step runs when the minute's epoch seconds are divisible by 300
      and the 1h step when they are divisible by 3600. Java's remainder and
      Dafny's agree on whether a remainder is zero. */
  predicate RunsFiveMinute(minute: int)
  {
    minute % 300 == 0
  }

  predicate RunsHourly(minute: int)
  {
    minute % 3600 == 0
  }

  /** Every hourly run is also a five-minute run. */
  lemma HourlyImpliesFiveMinute(minute: int)
    ensures RunsHourly(minute) ==> RunsFiveMinute(minute)
  {
    if RunsHourly(minute) {
      var k := minute / 3600;
      assert minute == (12 * k) * 300;
    }
  }

  /** `aggregateAndSaveAggregatedData`: the window is the `minutes` minutes
      before `minute`; nothing is saved without 1m bars. */
  function AggregateAndSaveAggregatedData(symbol: string, timeFrame: string, minutes: int, minute: int,
                                          oneMinuteData: seq<MarketData>): (r: Option<MarketData>)
    ensures r.None? <==> oneMinuteData == []
    ensures r.Some? ==> r.value.timestamp == minute - minutes * 60 && r.value.timeFrame == timeFrame
                        && r.value.symbol == symbol
    ensures r.Some? ==> r.value.open == oneMinuteData[0].open
                        && r.value.close == oneMinuteData[|oneMinuteData| - 1].close
  {
    if oneMinuteData == [] then None else Some(Reduce(symbol, timeFrame, minute - minutes * 60, oneMinuteData))
  }

  function Saved(r: Option<MarketData>): seq<MarketData>
  {
    if r.Some? then [r.value] else []
  }

  /** The bars saved for one symbol at `minute`, in the order of the saves. */
  function SymbolSaves(symbol: string, minute: int,
                       tradesIn: (string, int, int) -> seq<TradeRecord>,
                       latestBefore: (string, int) -> Option<MarketData>,
                       minuteBarsIn: (string, int, int) -> seq<MarketData>): seq<MarketData>
  {
    var startTime := minute - 60;
    Saved(AggregateOneMinuteData(symbol, startTime, tradesIn(symbol, startTime, minute), latestBefore(symbol, startTime)))
    + (if RunsFiveMinute(minute)
       then Saved(AggregateAndSaveAggregatedData(symbol, "5m", 5, minute, minuteBarsIn(symbol, minute - 300, minute)))
       else [])
    + (if RunsHourly(minute)
       then Saved(AggregateAndSaveAggregatedData(symbol, "1h", 60, minute, minuteBarsIn(symbol, minute - 3600, minute)))
       else [])
  }

  function AllSaves(symbols: seq<string>, minute: int,
                    tradesIn: (string, int, int) -> seq<TradeRecord>,
                    latestBefore: (string, int) -> Option<MarketData>,
                    minuteBarsIn: (string, int, int) -> seq<MarketData>): seq<MarketData>
  {
    if symbols == [] then []
    else AllSaves(symbols[..|symbols| - 1], minute, tradesIn, latestBefore, minuteBarsIn)
         + SymbolSaves(symbols[|symbols| - 1], minute, tradesIn, latestBefore, minuteBarsIn)
  }

  /** One iteration of the symbol loop: the saves for `symbol`. */
  method SaveSymbol(symbol: string, now: int,
                    tradesIn: (string, int, int) -> seq<TradeRecord>,
                    latestBefore: (string, int) -> Option<MarketData>,
                    minuteBarsIn: (string, int, int) -> seq<MarketData>)
    returns (step: seq<MarketData>)
    ensures step == SymbolSaves(symbol, now, tradesIn, latestBefore, minuteBarsIn)
  {
    var startTime := now - 60;
    var oneMinuteData := AggregateOneMinuteData(symbol, startTime, tradesIn(symbol, startTime, now),
                                                latestBefore(symbol, startTime));
    step := Saved(oneMinuteData);
    if now % 300 == 0 {
      step := step + Saved(AggregateAndSaveAggregatedData(symbol, "5m", 5, now, minuteBarsIn(symbol, now - 300, now)));
    }
    if now % 3600 == 0 {
      step := step + Saved(AggregateAndSaveAggregatedData(symbol, "1h", 60, now, minuteBarsIn(symbol, now - 3600, now)));
    }
  }

  /** `aggregateAndSaveMarketData`: the saves of one run, in order. */
  method AggregateAndSaveMarketData(nowSeconds: int,
                                    tradesIn: (string, int, int) -> seq<TradeRecord>,
                                    latestBefore: (string, int) -> Option<MarketData>,
                                    minuteBarsIn: (string, int, int) -> seq<MarketData>)
    returns (saved: seq<MarketData>)
    ensures saved == AllSaves(SYMBOLS, TruncateToMinute(nowSeconds), tradesIn, latestBefore, minuteBarsIn)
  {
    var now := TruncateToMinute(nowSeconds);
    saved := [];
    for i := 0 to |SYMBOLS|
      invariant saved == AllSaves(SYMBOLS[..i], now, tradesIn, latestBefore, minuteBarsIn)
    {
      var step := SaveSymbol(SYMBOLS[i], now, tradesIn, latestBefore, minuteBarsIn);
      assert SYMBOLS[..i + 1][..i] == SYMBOLS[..i];
      saved := saved + step;
    }
    assert SYMBOLS[..|SYMBOLS|] == SYMBOLS;
  }

  /** What a bar saved by one symbol's step is. */
  predicate SavedBar(b: MarketData, symbol: string, minute: int)
  {
    b.symbol == symbol
    && ((b.timeFrame == "1m" && b.timestamp == minute - 60)
        || (b.timeFrame == "5m" && b.timestamp == minute - 300 && RunsFiveMinute(minute))
        || (b.timeFrame == "1h" && b.timestamp == minute - 3600 && RunsHourly(minute)))
  }

  /** The stored 1m bars have their closes in range, whatever the query. */
  ghost predicate StoredBarsInRange(minuteBarsIn: (string, int, int) -> seq<MarketData>)
  {
    forall s, from, to, i :: 0 <= i < |minuteBarsIn(s, from, to)| ==> CloseInRange(minuteBarsIn(s, from, to)[i])
  }

  predicate BarsInRange(bars: seq<MarketData>)
  {
    forall i :: 0 <= i < |bars| ==> CloseInRange(bars[i])
  }

  /** The 1m save is the bar of the minute that started at `startTime`,
      with its close in range. */
  lemma OneMinuteSaveFacts(symbol: string, startTime: int, trades: seq<TradeRecord>, previous: Option<MarketData>)
    ensures forall b :: b in Saved(AggregateOneMinuteData(symbol, startTime, trades, previous)) ==>
              b.symbol == symbol && b.timeFrame == "1m" && b.timestamp == startTime && CloseInRange(b)
  {
    if trades != [] {
      OneMinuteBarWithTrades(symbol, startTime, trades, previous);
    }
  }

  /** An aggregated save is stamped with its window's start, and its close
      is in range when the 1m bars' closes are. */
  lemma AggregatedSaveFacts(symbol: string, timeFrame: string, minutes: int, minute: int, bars: seq<MarketData>)
    ensures forall b :: b in Saved(AggregateAndSaveAggregatedData(symbol, timeFrame, minutes, minute, bars)) ==>
              b.symbol == symbol && b.timeFrame == timeFrame && b.timestamp == minute - minutes * 60
    ensures BarsInRange(bars) ==>
              forall b :: b in Saved(AggregateAndSaveAggregatedData(symbol, timeFrame, minutes, minute, bars)) ==>
                CloseInRange(b)
  {
    if bars != [] {
      ReduceBounds(symbol, timeFrame, minute - minutes * 60, bars);
    }
  }

  /** The saves of one symbol are its 1m bar of the minute just ended and
      its 5m and 1h bars at matching boundaries, each with its close in range
      when the stored 1m bars have theirs in range. */
  lemma SymbolSavesFacts(symbol: string, minute: int,
                         tradesIn: (string, int, int) -> seq<TradeRecord>,
                         latestBefore: (string, int) -> Option<MarketData>,
                         minuteBarsIn: (string, int, int) -> seq<MarketData>)
    ensures forall b :: b in SymbolSaves(symbol, minute, tradesIn, latestBefore, minuteBarsIn) ==> SavedBar(b, symbol, minute)
    ensures StoredBarsInRange(minuteBarsIn) ==>
              forall b :: b in SymbolSaves(symbol, minute, tradesIn, latestBefore, minuteBarsIn) ==> CloseInRange(b)
  {
    var startTime := minute - 60;
    var one := Saved(AggregateOneMinuteData(symbol, startTime, tradesIn(symbol, startTime, minute),
                                            latestBefore(symbol, startTime)));
    var bars5, bars60 := minuteBarsIn(symbol, minute - 300, minute), minuteBarsIn(symbol, minute - 3600, minute);
    var five := if RunsFiveMinute(minute) then Saved(AggregateAndSaveAggregatedData(symbol, "5m", 5, minute, bars5)) else [];
    var hour := if RunsHourly(minute) then Saved(AggregateAndSaveAggregatedData(symbol, "1h", 60, minute, bars60)) else [];
    assert SymbolSaves(symbol, minute, tradesIn, latestBefore, minuteBarsIn) == one + five + hour;
    OneMinuteSaveFacts(symbol, startTime, tradesIn(symbol, startTime, minute), latestBefore(symbol, startTime));
    AggregatedSaveFacts(symbol, "5m", 5, minute, bars5);
    AggregatedSaveFacts(symbol, "1h", 60, minute, bars60);
    if StoredBarsInRange(minuteBarsIn) {
      assert BarsInRange(bars5) && BarsInRange(bars60);
    }
  }

  /** Every saved bar is the 1m bar of the minute just ended, or a 5m or 1h
      bar of the window just ended at a matching boundary, of one of the
      symbols; and when the stored 1m bars have their closes in range, so do
      all saved bars. */
  lemma {:induction false} AllSavesFacts(symbols: seq<string>, minute: int,
                                         tradesIn: (string, int, int) -> seq<TradeRecord>,
                                         latestBefore: (string, int) -> Option<MarketData>,
                                         minuteBarsIn: (string, int, int) -> seq<MarketData>)
    ensures forall b :: b in AllSaves(symbols, minute, tradesIn, latestBefore, minuteBarsIn) ==>
              exists s :: s in symbols && SavedBar(b, s, minute)
    ensures StoredBarsInRange(minuteBarsIn) ==>
              forall b :: b in AllSaves(symbols, minute, tradesIn, latestBefore, minuteBarsIn) ==> CloseInRange(b)
  {
    if symbols != [] {
      var p, s := symbols[..|symbols| - 1], symbols[|symbols| - 1];
      AllSavesFacts(p, minute, tradesIn, latestBefore, minuteBarsIn);
      SymbolSavesFacts(s, minute, tradesIn, latestBefore, minuteBarsIn);
      var before := AllSaves(p, minute, tradesIn, latestBefore, minuteBarsIn);
      var mine := SymbolSaves(s, minute, tradesIn, latestBefore, minuteBarsIn);
      assert AllSaves(symbols, minute, tradesIn, latestBefore, minuteBarsIn) == before + mine;
      forall b | b in before + mine
        ensures exists s' :: s' in symbols && SavedBar(b, s', minute)
      {
        if b in before {
          var s' :| s' in p && SavedBar(b, s', minute);
          assert s' in symbols;
        } else {
          assert s in symbols && SavedBar(b, s, minute);
        }
      }
    }
  }
}
