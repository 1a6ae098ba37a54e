/** Candles (OHLCV bars) and the stream reductions that build them: the
    maximum, the minimum and the sum of a sequence of decimals, and the
    reduction of consecutive bars into one bar of a longer time frame.
    Timestamps are epoch seconds. */
module Candles {
  import opened Util

  /** A `market_data` row, keyed by (symbol, timeFrame, timestamp). */
  datatype MarketData = MarketData(
    symbol: string,
    timeFrame: string,
    timestamp: int,
    open: real,
    high: real,
    low: real,
    close: real,
    volume: real)

  /** `Instant.truncatedTo(ChronoUnit.MINUTES)` on epoch seconds. */
  function TruncateToMinute(t: int): (m: int)
    ensures m <= t < m + 60 && m % 60 == 0
  {
    t - t % 60
  }

  /** `stream().max(compareTo)` of a non-empty sequence. */
  function MaxOf(xs: seq<real>): (m: real)
    requires |xs| > 0
    ensures m in xs
    ensures forall i :: 0 <= i < |xs| ==> xs[i] <= m
  {
    if |xs| == 1 then xs[0] else MaxReal(MaxOf(xs[..|xs| - 1]), xs[|xs| - 1])
  }

  /** `stream().min(compareTo)` of a non-empty sequence. */
  function MinOf(xs: seq<real>): (m: real)
    requires |xs| > 0
    ensures m in xs
    ensures forall i :: 0 <= i < |xs| ==> m <= xs[i]
  {
    if |xs| == 1 then xs[0] else MinReal(MinOf(xs[..|xs| - 1]), xs[|xs| - 1])
  }

  /** `stream().reduce(ZERO, add)`. */
  function SumOf(xs: seq<real>): real
  {
    if xs == [] then 0.0 else SumOf(xs[..|xs| - 1]) + xs[|xs| - 1]
  }

  lemma {:induction false} SumOfNonNegative(xs: seq<real>)
    requires forall i :: 0 <= i < |xs| ==> xs[i] >= 0.0
    ensures SumOf(xs) >= 0.0
  {
    if xs != [] {
      SumOfNonNegative(xs[..|xs| - 1]);
    }
  }

  function Highs(bars: seq<MarketData>): seq<real>
  {
    seq(|bars|, i requires 0 <= i < |bars| => bars[i].high)
  }

  function Lows(bars: seq<MarketData>): seq<real>
  {
    seq(|bars|, i requires 0 <= i < |bars| => bars[i].low)
  }

  function Volumes(bars: seq<MarketData>): seq<real>
  {
    seq(|bars|, i requires 0 <= i < |bars| => bars[i].volume)
  }

  /** One bar of `timeFrame` from consecutive shorter bars: the first open,
      the last close, the highest high, the lowest low and the total
      volume. */
  function Reduce(symbol: string, timeFrame: string, timestamp: int, bars: seq<MarketData>): MarketData
    requires |bars| > 0
  {
    MarketData(symbol, timeFrame, timestamp, bars[0].open, MaxOf(Highs(bars)), MinOf(Lows(bars)),
               bars[|bars| - 1].close, SumOf(Volumes(bars)))
  }

  /** The close lies within the bar's range. */
  predicate CloseInRange(b: MarketData)
  {
    b.low <= b.close <= b.high
  }

  /** Open and close both lie within the range and the volume is not negative. */
  predicate WellFormed(b: MarketData)
  {
    CloseInRange(b) && b.low <= b.open <= b.high && b.volume >= 0.0
  }

  predicate AllWellFormed(bars: seq<MarketData>)
  {
    forall i :: 0 <= i < |bars| ==> WellFormed(bars[i])
  }

  /** The reduced bar spans every input bar, keeps the closes in range when
      the inputs do, and is well formed when the inputs are. */
  lemma ReduceBounds(symbol: string, timeFrame: string, timestamp: int, bars: seq<MarketData>)
    requires |bars| > 0
    ensures var r := Reduce(symbol, timeFrame, timestamp, bars);
            forall i :: 0 <= i < |bars| ==> r.low <= bars[i].low && bars[i].high <= r.high
    ensures (forall i :: 0 <= i < |bars| ==> CloseInRange(bars[i]))
            ==> CloseInRange(Reduce(symbol, timeFrame, timestamp, bars))
    ensures AllWellFormed(bars) ==> WellFormed(Reduce(symbol, timeFrame, timestamp, bars))
  {
    var r := Reduce(symbol, timeFrame, timestamp, bars);
    assert forall i :: 0 <= i < |bars| ==> Highs(bars)[i] == bars[i].high && Lows(bars)[i] == bars[i].low;
    if AllWellFormed(bars) {
      SumOfNonNegative(Volumes(bars));
    }
  }
}
