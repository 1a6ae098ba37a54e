/** Start-up back-fill of candle history. For a symbol it picks the range
    from just after the last stored bar (or 1000 hours back) to the current
    minute, cuts it into 32 contiguous slices, generates one random-walk 1m
    bar per minute of each slice, and inserts the bars in batches of at most
    1000. It then reduces the stored 1m bars into aligned 5m and 1h windows.

    The random draws, the clock and the database queries are parameters.
    The 32 worker threads are modelled as a sequential loop over the slices. */
module MarketDataInitialization {
  import opened Util
  import opened Candles

  const THREADS: nat := 32
  const DEFAULT_BATCH_SIZE: nat := 1000
  /** Without stored data the range starts 1000 hours before the current minute. */
  const LOOKBACK_SECONDS: int := 1000 * 3600

  /** Java's `/` on `long`: the quotient is truncated toward zero. */
  function JavaQuot(a: int, b: int): int
    requires b > 0
  {
    if a >= 0 then a / b else -((-a) / b)
  }

  /** Java's `%` on `long`: the remainder takes the sign of the dividend. */
  function JavaRem(a: int, b: int): (r: int)
    requires b > 0
    ensures a >= 0 ==> 0 <= r < b
    ensures a < 0 ==> -b < r <= 0
    ensures a - r == b * JavaQuot(a, b)
  {
    if a >= 0 then a % b else -((-a) % b)
  }

  // ---------------------------------------------------------------------
  // Prices
  // ---------------------------------------------------------------------

  /** The starting price when a symbol has no stored data. */
  function DefaultPrice(symbol: string): real
  {
    if symbol == "BTCUSDT" then 50000.0 else 4000.0
  }

  /** `getLastPrice`: the stored close at `time`, or a per-symbol fallback
      when there is no such row. */
  function GetLastPrice(symbol: string, time: int, closeAt: int -> Option<real>): real
  {
    match closeAt(time)
    case Some(p) => p
    case None => if symbol == "ETHUSDT" then 4000.0 else 50000.0
  }

  /** The two defaults agree for the two initialised symbols; for any other
      symbol `getLastPrice` falls back to 50000 while the start-price default
      is 4000. */
  lemma DefaultsForListedSymbols(closeAt: int -> Option<real>, time: int)
    requires closeAt(time).None?
    ensures GetLastPrice("BTCUSDT", time, closeAt) == DefaultPrice("BTCUSDT") == 50000.0
    ensures GetLastPrice("ETHUSDT", time, closeAt) == DefaultPrice("ETHUSDT") == 4000.0
    ensures forall symbol :: symbol != "BTCUSDT" && symbol != "ETHUSDT" ==>
              GetLastPrice(symbol, time, closeAt) == 50000.0 && DefaultPrice(symbol) == 4000.0
  {
  }

  /** The price the back-fill starts from: the stored close at the last data
      time, or the symbol's start-price default when there is no data. */
  function StartPrice(symbol: string, lastDataTime: Option<int>, closeAt: int -> Option<real>): real
  {
    if lastDataTime.Some? then GetLastPrice(symbol, lastDataTime.value, closeAt) else DefaultPrice(symbol)
  }

  // ---------------------------------------------------------------------
  // The range and its 32 slices
  // ---------------------------------------------------------------------

  function StartTime(endTime: int, lastDataTime: Option<int>): int
  {
    if lastDataTime.Some? then lastDataTime.value + 60 else endTime - LOOKBACK_SECONDS
  }

  /** `ChronoUnit.MINUTES.between(start, end) / THREADS` for start <= end. */
  function MinutesPerThread(start: int, end: int): nat
    requires start <= end
  {
    ((end - start) / 60) / THREADS
  }

  function SliceStart(start: int, perThread: nat, i: nat): int
  {
    start + perThread * i * 60
  }

  /** Every slice but the last is `perThread` minutes long; the last one
      runs to the end of the range. */
  function SliceEnd(start: int, end: int, perThread: nat, i: nat): int
  {
    if i == THREADS - 1 then end else SliceStart(start, perThread, i) + perThread * 60
  }

  datatype SlicePlan = SlicePlan(start: int, end: int, initialPrice: real)

  /** Slice `i`: its bounds, and its starting price (the range's price for the
      first slice, the stored close of the minute before for the others). */
  function PlanOf(symbol: string, start: int, end: int, lastPrice: real,
                  closeAt: int -> Option<real>, i: nat): SlicePlan
    requires start <= end
  {
    var m := MinutesPerThread(start, end);
    SlicePlan(SliceStart(start, m, i), SliceEnd(start, end, m, i),
              if i == 0 then lastPrice else GetLastPrice(symbol, SliceStart(start, m, i) - 60, closeAt))
  }

  lemma MulMono(a: int, b: int, c: nat)
    requires a <= b
    ensures c * a <= c * b
  {
    assert c * b - c * a == c * (b - a);
  }

  /** The slices form a contiguous cover of [start, end): the first starts at
      start, each ends where the next begins, the last ends at end, and none
      is reversed. */
  lemma SlicesCover(start: int, end: int)
    requires start <= end
    ensures var m := MinutesPerThread(start, end);
            SliceStart(start, m, 0) == start && SliceEnd(start, end, m, THREADS - 1) == end
            && (forall i :: 0 <= i < THREADS - 1 ==> SliceEnd(start, end, m, i) == SliceStart(start, m, i + 1))
            && (forall i :: 0 <= i < THREADS ==> SliceStart(start, m, i) <= SliceEnd(start, end, m, i))
  {
    var m := MinutesPerThread(start, end);
    var total := (end - start) / 60;
    forall i | 0 <= i < THREADS - 1
      ensures SliceEnd(start, end, m, i) == SliceStart(start, m, i + 1)
    {
      assert m * (i + 1) * 60 == m * i * 60 + m * 60;
    }
    assert 32 * m <= total;
    assert 60 * total <= end - start;
    assert m * 31 * 60 <= end - start;
    forall i | 0 <= i < THREADS
      ensures SliceStart(start, m, i) <= SliceEnd(start, end, m, i)
    {
      if i == THREADS - 1 {
        assert SliceStart(start, m, i) == start + m * 31 * 60;
      } else {
        assert m * 60 >= 0;
      }
    }
  }

  /** The loop that starts one task per slice. */
  method PlanSlices(symbol: string, start: int, end: int, lastPrice: real, closeAt: int -> Option<real>)
    returns (plans: seq<SlicePlan>)
    requires start <= end
    ensures |plans| == THREADS
    ensures forall i :: 0 <= i < THREADS ==> plans[i] == PlanOf(symbol, start, end, lastPrice, closeAt, i)
  {
    var minutesPerThread := ((end - start) / 60) / THREADS;
    plans := [];
    for i := 0 to THREADS
      invariant |plans| == i
      invariant forall k :: 0 <= k < i ==> plans[k] == PlanOf(symbol, start, end, lastPrice, closeAt, k)
    {
      var threadStartTime := start + minutesPerThread * i * 60;
      var threadEndTime := if i == THREADS - 1 then end else threadStartTime + minutesPerThread * 60;
      var threadInitialPrice := if i == 0 then lastPrice else GetLastPrice(symbol, threadStartTime - 60, closeAt);
      plans := plans + [SlicePlan(threadStartTime, threadEndTime, threadInitialPrice)];
    }
  }

  // ---------------------------------------------------------------------
  // Random-walk bars
  // ---------------------------------------------------------------------

  /** The four `nextDouble()` draws one bar consumes, in the order drawn. */
  datatype Draws = Draws(change: real, high: real, low: real, volume: real)

  predicate UnitDraws(d: Draws)
  {
    0.0 <= d.change < 1.0 && 0.0 <= d.high < 1.0 && 0.0 <= d.low < 1.0 && 0.0 <= d.volume < 1.0
  }

  /** The close after the move, held to [30000, 70000] for BTCUSDT and to
      [2000, 6000] for ETHUSDT; other symbols are not held. */
  function ClampClose(symbol: string, x: real): (c: real)
    ensures symbol == "BTCUSDT" ==> 30000.0 <= c <= 70000.0
    ensures symbol == "ETHUSDT" ==> 2000.0 <= c <= 6000.0
    ensures symbol != "BTCUSDT" && symbol != "ETHUSDT" ==> c == x
  {
    if symbol == "BTCUSDT" then MinReal(MaxReal(x, 30000.0), 70000.0)
    else if symbol == "ETHUSDT" then MinReal(MaxReal(x, 2000.0), 6000.0)
    else x
  }

  /** `generateMarketData`: open at the last price, a move of at most 0.5%
      of it, high and low widened beyond open and close by up to 0.5%. */
  function GenerateMarketData(symbol: string, time: int, lastPrice: real, d: Draws): (b: MarketData)
    ensures b.open == lastPrice && b.timestamp == time && b.timeFrame == "1m" && b.symbol == symbol
  {
    var maxChange := lastPrice * 0.005;
    var change := maxChange * (d.change * 2.0 - 1.0);
    var close := ClampClose(symbol, lastPrice + change);
    MarketData(symbol, "1m", time, lastPrice,
               MaxReal(lastPrice, close) + maxChange * d.high,
               MinReal(lastPrice, close) - maxChange * d.low,
               close, d.volume * 100.0)
  }

  /** From a non-negative price and draws in [0, 1): the bar is well formed,
      its close is not negative and its volume is below 100. */
  lemma GeneratedBarBounds(symbol: string, time: int, lastPrice: real, d: Draws)
    requires lastPrice >= 0.0 && UnitDraws(d)
    ensures WellFormed(GenerateMarketData(symbol, time, lastPrice, d))
    ensures GenerateMarketData(symbol, time, lastPrice, d).close >= 0.0
    ensures GenerateMarketData(symbol, time, lastPrice, d).volume < 100.0
  {
    var b := GenerateMarketData(symbol, time, lastPrice, d);
    var maxChange := lastPrice * 0.005;
    GeneratedMove(lastPrice, d.change * 2.0 - 1.0);
    assert b.close >= 0.0;
    MulNonNeg(maxChange, d.high);
    MulNonNeg(maxChange, d.low);
    assert b.high >= MaxReal(lastPrice, b.close) && b.low <= MinReal(lastPrice, b.close);
  }

  /** A move of `f` times 0.5% of the price, for f in [-1, 1], stays within
      0.5% of the price. */
  lemma GeneratedMove(lastPrice: real, f: real)
    requires lastPrice >= 0.0 && -1.0 <= f <= 1.0
    ensures lastPrice - lastPrice * 0.005 <= lastPrice + lastPrice * 0.005 * f <= lastPrice + lastPrice * 0.005
    ensures lastPrice + lastPrice * 0.005 * f >= 0.0
  {
    var maxChange := lastPrice * 0.005;
    MulNonNeg(maxChange, f + 1.0);
    MulNonNeg(maxChange, 1.0 - f);
    assert maxChange * f + maxChange == maxChange * (f + 1.0);
    assert maxChange - maxChange * f == maxChange * (1.0 - f);
  }

  /** The close is held to [30000, 70000] for BTCUSDT and to [2000, 6000]
      for ETHUSDT; for any other symbol it moves by at most 0.5%. */
  lemma GeneratedCloseBounds(symbol: string, time: int, lastPrice: real, d: Draws)
    requires lastPrice >= 0.0 && UnitDraws(d)
    ensures symbol == "BTCUSDT" ==> 30000.0 <= GenerateMarketData(symbol, time, lastPrice, d).close <= 70000.0
    ensures symbol == "ETHUSDT" ==> 2000.0 <= GenerateMarketData(symbol, time, lastPrice, d).close <= 6000.0
    ensures symbol != "BTCUSDT" && symbol != "ETHUSDT" ==>
              lastPrice - lastPrice * 0.005 <= GenerateMarketData(symbol, time, lastPrice, d).close
              <= lastPrice + lastPrice * 0.005
  {
    var f := d.change * 2.0 - 1.0;
    GeneratedMove(lastPrice, f);
    if symbol != "BTCUSDT" && symbol != "ETHUSDT" {
      assert GenerateMarketData(symbol, time, lastPrice, d).close == lastPrice + (lastPrice * 0.005) * f;
    }
  }

  lemma MulNonNeg(a: real, b: real)
    requires a >= 0.0 && b >= 0.0
    ensures a * b >= 0.0
  {
  }

  /** The bars of a slice of `count` minutes from `start`: bar k is stamped
      start + 60k and opens at the previous bar's close. Bar k consumes the
      draws `draw(stream, k)`. */
  function Generate(symbol: string, start: int, count: nat, initialPrice: real,
                    draw: (nat, nat) -> Draws, stream: nat): (bars: seq<MarketData>)
    ensures |bars| == count
    ensures forall k :: 0 <= k < count ==>
              bars[k].timestamp == start + 60 * k && bars[k].timeFrame == "1m" && bars[k].symbol == symbol
    ensures count > 0 ==> bars[0].open == initialPrice
  {
    if count == 0 then []
    else
      var prev := Generate(symbol, start, count - 1, initialPrice, draw, stream);
      var lastPrice := if count == 1 then initialPrice else prev[count - 2].close;
      prev + [GenerateMarketData(symbol, start + 60 * (count - 1), lastPrice, draw(stream, count - 1))]
  }

  /** The walk is continuous: each bar opens at the previous bar's close. */
  lemma {:induction false} GeneratedWalkContinuous(symbol: string, start: int, count: nat, initialPrice: real,
                                                   draw: (nat, nat) -> Draws, stream: nat, k: nat)
    requires 0 < k < count
    ensures Generate(symbol, start, count, initialPrice, draw, stream)[k].open
            == Generate(symbol, start, count, initialPrice, draw, stream)[k - 1].close
  {
    var prev := Generate(symbol, start, count - 1, initialPrice, draw, stream);
    if k < count - 1 {
      GeneratedWalkContinuous(symbol, start, count - 1, initialPrice, draw, stream, k);
    }
  }

  /** Every generated bar is well formed when the walk starts at a
      non-negative price and all draws lie in [0, 1). */
  lemma {:induction false} GeneratedBarsWellFormed(symbol: string, start: int, count: nat, initialPrice: real,
                                                   draw: (nat, nat) -> Draws, stream: nat)
    requires initialPrice >= 0.0
    requires forall k: nat :: UnitDraws(draw(stream, k))
    ensures AllWellFormed(Generate(symbol, start, count, initialPrice, draw, stream))
    ensures forall k :: 0 <= k < count ==> Generate(symbol, start, count, initialPrice, draw, stream)[k].close >= 0.0
  {
    if count > 0 {
      GeneratedBarsWellFormed(symbol, start, count - 1, initialPrice, draw, stream);
      var prev := Generate(symbol, start, count - 1, initialPrice, draw, stream);
      var lastPrice := if count == 1 then initialPrice else prev[count - 2].close;
      var bar := GenerateMarketData(symbol, start + 60 * (count - 1), lastPrice, draw(stream, count - 1));
      var bars := Generate(symbol, start, count, initialPrice, draw, stream);
      assert bars == prev + [bar];
      assert count > 1 ==> prev[count - 2].close >= 0.0;
      GeneratedBarBounds(symbol, start + 60 * (count - 1), lastPrice, draw(stream, count - 1));
      forall k | 0 <= k < count
        ensures WellFormed(bars[k]) && bars[k].close >= 0.0
      {
        if k < count - 1 {
          assert bars[k] == prev[k];
        } else {
          assert bars[k] == bar;
        }
      }
    }
  }

  // ---------------------------------------------------------------------
  // Batched inserts
  // ---------------------------------------------------------------------

  /** Batches flushed inside the loop hold exactly DEFAULT_BATCH_SIZE rows. */
  predicate FullChunks(chunks: seq<seq<MarketData>>)
  {
    forall i :: 0 <= i < |chunks| ==> |chunks[i]| == DEFAULT_BATCH_SIZE
  }

  /** `batch.add(data)`, then a flush once the batch is full. */
  method AddToBatch(chunks: seq<seq<MarketData>>, batch: seq<MarketData>, data: MarketData)
    returns (chunks': seq<seq<MarketData>>, batch': seq<MarketData>)
    requires FullChunks(chunks) && |batch| < DEFAULT_BATCH_SIZE
    ensures FullChunks(chunks') && |batch'| < DEFAULT_BATCH_SIZE
    ensures Flatten(chunks') + batch' == Flatten(chunks) + batch + [data]
  {
    batch' := batch + [data];
    chunks' := chunks;
    if |batch'| >= DEFAULT_BATCH_SIZE {
      assert (chunks + [batch'])[..|chunks|] == chunks;
      chunks' := chunks + [batch'];
      batch' := [];
    }
  }

  /** The insert of the remaining rows after the loop, if any. */
  method FinishBatch(chunks: seq<seq<MarketData>>, batch: seq<MarketData>) returns (chunks': seq<seq<MarketData>>)
    requires FullChunks(chunks) && |batch| < DEFAULT_BATCH_SIZE
    ensures Flatten(chunks') == Flatten(chunks) + batch
    ensures ChunksBounded(chunks', DEFAULT_BATCH_SIZE)
    ensures forall i :: 0 <= i < |chunks'| - 1 ==> |chunks'[i]| == DEFAULT_BATCH_SIZE
  {
    chunks' := chunks;
    if batch != [] {
      assert (chunks + [batch])[..|chunks|] == chunks;
      chunks' := chunks + [batch];
    } else {
      assert Flatten(chunks) + batch == Flatten(chunks);
    }
  }

  /** The number of steps of `step` seconds from `first` before reaching `end`. */
  function WindowCount(first: int, end: int, step: nat): nat
    requires step > 0
  {
    if first < end then (end - first + step - 1) / step else 0
  }

  /** A loop that stops at the first `first + step * k >= end` ran
      WindowCount times. */
  lemma WindowCountExact(first: int, end: int, step: nat, k: nat)
    requires step > 0
    requires first + step * k >= end
    requires k > 0 ==> first + step * (k - 1) < end
    ensures WindowCount(first, end, step) == k
  {
    if k > 0 {
      var d := end - first + step - 1;
      var q := d / step;
      assert step * (k - 1) + step == step * k;
      assert step * k <= d < step * k + step;
      assert step * q <= d < step * q + step;
      if q < k {
        MulMono(q + 1, k, step);
      } else if q > k {
        MulMono(k + 1, q, step);
      }
    }
  }

  /** The price the next bar opens at: the initial price, then the close of
      the last bar generated. */
  function LastClose(symbol: string, start: int, count: nat, initialPrice: real,
                     draw: (nat, nat) -> Draws, stream: nat): real
  {
    if count == 0 then initialPrice else Generate(symbol, start, count, initialPrice, draw, stream)[count - 1].close
  }

  lemma GenerateNext(symbol: string, start: int, count: nat, initialPrice: real,
                     draw: (nat, nat) -> Draws, stream: nat)
    ensures var bar := GenerateMarketData(symbol, start + 60 * count,
                                          LastClose(symbol, start, count, initialPrice, draw, stream),
                                          draw(stream, count));
            Generate(symbol, start, count + 1, initialPrice, draw, stream)
            == Generate(symbol, start, count, initialPrice, draw, stream) + [bar]
            && LastClose(symbol, start, count + 1, initialPrice, draw, stream) == bar.close
  {
  }

  /** `generateAndInsertData`: the bars of [startTime, endTime), one per
      minute, inserted in order in batches of at most 1000. */
  method GenerateAndInsertData(symbol: string, startTime: int, endTime: int, initialPrice: real,
                               draw: (nat, nat) -> Draws, stream: nat)
    returns (chunks: seq<seq<MarketData>>)
    ensures Flatten(chunks) == Generate(symbol, startTime, WindowCount(startTime, endTime, 60), initialPrice, draw, stream)
    ensures ChunksBounded(chunks, DEFAULT_BATCH_SIZE)
    ensures forall i :: 0 <= i < |chunks| - 1 ==> |chunks[i]| == DEFAULT_BATCH_SIZE
  {
    var batch: seq<MarketData> := [];
    chunks := [];
    var lastPrice := initialPrice;
    var time := startTime;
    var k: nat := 0;  // the position in the draw stream
    while time < endTime
      invariant time == startTime + 60 * k
      invariant k > 0 ==> time - 60 < endTime
      invariant FullChunks(chunks) && |batch| < DEFAULT_BATCH_SIZE
      invariant Flatten(chunks) + batch == Generate(symbol, startTime, k, initialPrice, draw, stream)
      invariant lastPrice == LastClose(symbol, startTime, k, initialPrice, draw, stream)
      decreases endTime - time
    {
      var data := GenerateMarketData(symbol, time, lastPrice, draw(stream, k));
      GenerateNext(symbol, startTime, k, initialPrice, draw, stream);
      chunks, batch := AddToBatch(chunks, batch, data);
      lastPrice := data.close;
      time := time + 60;
      k := k + 1;
    }
    WindowCountExact(startTime, endTime, 60, k);
    chunks := FinishBatch(chunks, batch);
  }

  // ---------------------------------------------------------------------
  // Aggregation into aligned windows
  // ---------------------------------------------------------------------

  /** The end of the aggregated range: a 5m (1h) run away from a five-minute
      (hour) boundary stops `minutes` before the current minute. */
  function AdjustedEnd(timeFrame: string, endTime: int, now: int, minutes: int): int
  {
    if timeFrame == "5m" then (if JavaRem(now, 5 * 60) != 0 then now - minutes * 60 else endTime)
    else if timeFrame == "1h" then (if JavaRem(now, 60 * 60) != 0 then now - minutes * 60 else endTime)
    else endTime
  }

  /** The start truncated to the minute, minus the start's Java remainder
      modulo the window length. */
  function AlignedStart(start: int, minutes: nat): int
    requires minutes > 0
  {
    TruncateToMinute(start) - JavaRem(start, minutes * 60)
  }

  /** For a whole-minute start the aligned start is a window boundary, and
      for a start after the epoch it is the boundary at or just before it. */
  lemma AlignedStartFacts(start: int, minutes: nat)
    requires minutes > 0 && start % 60 == 0
    ensures AlignedStart(start, minutes) == (minutes * 60) * JavaQuot(start, minutes * 60)
    ensures start >= 0 ==> AlignedStart(start, minutes) <= start < AlignedStart(start, minutes) + minutes * 60
  {
    assert TruncateToMinute(start) == start;
  }

  /** A start that is not a whole minute loses its seconds twice: 5m30s
      aligns to 4m30s, which is not a five-minute boundary. */
  lemma UnalignedStartExample()
    ensures AlignedStart(330, 5) == 270 && 270 % 300 != 0
  {
  }

  /** The start of window `w`. */
  function WindowStart(first: int, step: nat, w: nat): int
  {
    first + step * w
  }

  lemma WindowStartMono(first: int, step: nat, v: nat, w: nat)
    requires v < w && step > 0
    ensures WindowStart(first, step, v) < WindowStart(first, step, w)
  {
    MulMono(v + 1, w, step);
  }

  /** The aggregated bars of `count` windows of `step` seconds from `first`:
      a window with 1m bars gives one reduced bar stamped with its start; an
      empty window gives none. */
  function WindowBars(symbol: string, timeFrame: string, first: int, step: nat, count: nat,
                      barsIn: (int, int) -> seq<MarketData>): (r: seq<MarketData>)
    requires step > 0
    ensures |r| <= count
  {
    if count == 0 then []
    else
      var prev := WindowBars(symbol, timeFrame, first, step, count - 1, barsIn);
      var time := WindowStart(first, step, count - 1);
      var oneMinuteData := barsIn(time, time + step);
      if oneMinuteData == [] then prev else prev + [Reduce(symbol, timeFrame, time, oneMinuteData)]
  }

  /** Every bar of `r` carries the symbol and time frame and is stamped with
      the start of one of `count` windows; the stamps strictly increase. */
  predicate StampedWindows(r: seq<MarketData>, symbol: string, timeFrame: string, first: int, step: nat, count: nat)
  {
    (forall j :: 0 <= j < |r| ==>
       r[j].symbol == symbol && r[j].timeFrame == timeFrame
       && first <= r[j].timestamp < WindowStart(first, step, count)
       && exists w :: 0 <= w < count && r[j].timestamp == WindowStart(first, step, w))
    && (forall i, j :: 0 <= i < j < |r| ==> r[i].timestamp < r[j].timestamp)
  }

  lemma StampedWindowsWiden(r: seq<MarketData>, symbol: string, timeFrame: string, first: int, step: nat, count: nat)
    requires step > 0 && StampedWindows(r, symbol, timeFrame, first, step, count)
    ensures StampedWindows(r, symbol, timeFrame, first, step, count + 1)
  {
    WindowStartMono(first, step, count, count + 1);
    forall j | 0 <= j < |r|
      ensures exists w :: 0 <= w < count + 1 && r[j].timestamp == WindowStart(first, step, w)
    {
      var w :| 0 <= w < count && r[j].timestamp == WindowStart(first, step, w);
    }
  }

  lemma StampedWindowsExtend(r: seq<MarketData>, bar: MarketData, symbol: string, timeFrame: string,
                             first: int, step: nat, count: nat)
    requires step > 0 && StampedWindows(r, symbol, timeFrame, first, step, count)
    requires bar.symbol == symbol && bar.timeFrame == timeFrame && bar.timestamp == WindowStart(first, step, count)
    ensures StampedWindows(r + [bar], symbol, timeFrame, first, step, count + 1)
  {
    StampedWindowsWiden(r, symbol, timeFrame, first, step, count);
    WindowStartMono(first, step, count, count + 1);
    assert first <= bar.timestamp by {
      MulMono(0, count, step);
    }
    var r' := r + [bar];
    assert forall j :: 0 <= j < |r| ==> r'[j] == r[j];
    assert r'[|r|] == bar;
  }

  /** The last window, when it has no 1m bars, adds no bar. */
  lemma WindowBarsSkip(symbol: string, timeFrame: string, first: int, step: nat, count: nat,
                       barsIn: (int, int) -> seq<MarketData>)
    requires step > 0 && count > 0
    requires barsIn(WindowStart(first, step, count - 1), WindowStart(first, step, count - 1) + step) == []
    requires StampedWindows(WindowBars(symbol, timeFrame, first, step, count - 1, barsIn), symbol, timeFrame,
                            first, step, count - 1)
    ensures StampedWindows(WindowBars(symbol, timeFrame, first, step, count, barsIn), symbol, timeFrame,
                           first, step, count)
  {
    var prev := WindowBars(symbol, timeFrame, first, step, count - 1, barsIn);
    assert WindowBars(symbol, timeFrame, first, step, count, barsIn) == prev;
    StampedWindowsWiden(prev, symbol, timeFrame, first, step, count - 1);
  }

  /** The last window, when it has 1m bars, adds their reduction stamped
      with its start. */
  lemma WindowBarsAdd(symbol: string, timeFrame: string, first: int, step: nat, count: nat,
                      barsIn: (int, int) -> seq<MarketData>)
    requires step > 0 && count > 0
    requires barsIn(WindowStart(first, step, count - 1), WindowStart(first, step, count - 1) + step) != []
    requires StampedWindows(WindowBars(symbol, timeFrame, first, step, count - 1, barsIn), symbol, timeFrame,
                            first, step, count - 1)
    ensures StampedWindows(WindowBars(symbol, timeFrame, first, step, count, barsIn), symbol, timeFrame,
                           first, step, count)
  {
    var prev := WindowBars(symbol, timeFrame, first, step, count - 1, barsIn);
    var time := WindowStart(first, step, count - 1);
    var bar := Reduce(symbol, timeFrame, time, barsIn(time, time + step));
    assert WindowBars(symbol, timeFrame, first, step, count, barsIn) == prev + [bar];
    StampedWindowsExtend(prev, bar, symbol, timeFrame, first, step, count - 1);
  }

  /** Each aggregated bar carries the symbol and time frame and is stamped
      with the start of one of the windows; the stamps strictly increase. */
  lemma {:induction false} WindowBarsStamps(symbol: string, timeFrame: string, first: int, step: nat, count: nat,
                                            barsIn: (int, int) -> seq<MarketData>)
    requires step > 0
    ensures StampedWindows(WindowBars(symbol, timeFrame, first, step, count, barsIn), symbol, timeFrame,
                           first, step, count)
  {
    if count > 0 {
      WindowBarsStamps(symbol, timeFrame, first, step, count - 1, barsIn);
      var time := WindowStart(first, step, count - 1);
      if barsIn(time, time + step) == [] {
        WindowBarsSkip(symbol, timeFrame, first, step, count, barsIn);
      } else {
        WindowBarsAdd(symbol, timeFrame, first, step, count, barsIn);
      }
    }
  }

  /** Aggregated bars are well formed when the 1m bars are. */
  lemma {:induction false} WindowBarsWellFormed(symbol: string, timeFrame: string, first: int, step: nat, count: nat,
                                                barsIn: (int, int) -> seq<MarketData>)
    requires step > 0
    requires forall from, to :: AllWellFormed(barsIn(from, to))
    ensures AllWellFormed(WindowBars(symbol, timeFrame, first, step, count, barsIn))
  {
    if count > 0 {
      WindowBarsWellFormed(symbol, timeFrame, first, step, count - 1, barsIn);
      var time := WindowStart(first, step, count - 1);
      WindowBarsWellFormedStep(symbol, timeFrame, first, step, count, barsIn, barsIn(time, time + step));
    }
  }

  lemma WindowBarsWellFormedStep(symbol: string, timeFrame: string, first: int, step: nat, count: nat,
                                 barsIn: (int, int) -> seq<MarketData>, oneMinuteData: seq<MarketData>)
    requires step > 0 && count > 0
    requires oneMinuteData == barsIn(WindowStart(first, step, count - 1), WindowStart(first, step, count - 1) + step)
    requires AllWellFormed(oneMinuteData)
    requires AllWellFormed(WindowBars(symbol, timeFrame, first, step, count - 1, barsIn))
    ensures AllWellFormed(WindowBars(symbol, timeFrame, first, step, count, barsIn))
  {
    var prev := WindowBars(symbol, timeFrame, first, step, count - 1, barsIn);
    var time := WindowStart(first, step, count - 1);
    if oneMinuteData == [] {
      assert WindowBars(symbol, timeFrame, first, step, count, barsIn) == prev;
    } else {
      ReduceBounds(symbol, timeFrame, time, oneMinuteData);
      var bar := Reduce(symbol, timeFrame, time, oneMinuteData);
      assert WindowBars(symbol, timeFrame, first, step, count, barsIn) == prev + [bar];
      AllWellFormedSnoc(prev, bar);
    }
  }

  lemma AllWellFormedSnoc(bars: seq<MarketData>, bar: MarketData)
    requires AllWellFormed(bars) && WellFormed(bar)
    ensures AllWellFormed(bars + [bar])
  {
    assert forall j :: 0 <= j < |bars| ==> (bars + [bar])[j] == bars[j];
  }

  /** A window that starts before `end` lies within the aggregated range. */
  lemma WindowBeforeEnd(first: int, end: int, step: nat, w: nat)
    requires step > 0 && w < WindowCount(first, end, step)
    ensures WindowStart(first, step, w) < end
  {
    var d := end - first + step - 1;
    var q := d / step;
    assert step * q + d % step == d;
    MulMono(w + 1, q, step);
    assert step * (w + 1) == step * w + step;
  }

  /** The back-fill aggregates only windows that are already over: from a
      whole-minute start, every 5m (1h) window below the adjusted end closes
      at or before the current minute, whether or not that minute is on a
      window boundary. */
  lemma {:induction false} AggregatedWindowsAreComplete(startTime: int, now: int, timeFrame: string, minutes: nat, w: nat)
    requires startTime % 60 == 0 && now % 60 == 0
    requires (timeFrame == "5m" && minutes == 5) || (timeFrame == "1h" && minutes == 60)
    requires w < WindowCount(AlignedStart(startTime, minutes), AdjustedEnd(timeFrame, now, now, minutes), minutes * 60)
    ensures WindowStart(AlignedStart(startTime, minutes), minutes * 60, w) + minutes * 60 <= now
  {
    var step := minutes * 60;
    var first := AlignedStart(startTime, minutes);
    var end := AdjustedEnd(timeFrame, now, now, minutes);
    WindowBeforeEnd(first, end, step, w);
    if JavaRem(now, step) == 0 {
      assert end == now;
      AlignedStartFacts(startTime, minutes);
      var q0 := JavaQuot(startTime, step);
      var qn := JavaQuot(now, step);
      assert now == step * qn;
      assert WindowStart(first, step, w) == step * (q0 + w);
      if qn < q0 + w + 1 {
        MulMono(qn, q0 + w, step);
      }
      MulMono(q0 + w + 1, qn, step);
      assert step * (q0 + w + 1) == step * (q0 + w) + step;
    } else {
      assert end == now - step;
    }
  }

  /** `aggregateData`: the windows of `minutes` from the aligned start up to
      the adjusted end, inserted in order in batches of at most 1000. */
  method AggregateData(symbol: string, startTime: int, endTime: int, timeFrame: string, minutes: nat,
                       nowSeconds: int, barsIn: (int, int) -> seq<MarketData>)
    returns (chunks: seq<seq<MarketData>>)
    requires minutes > 0
    ensures var first := AlignedStart(startTime, minutes);
            var end := AdjustedEnd(timeFrame, endTime, TruncateToMinute(nowSeconds), minutes);
            Flatten(chunks) == WindowBars(symbol, timeFrame, first, minutes * 60,
                                          WindowCount(first, end, minutes * 60), barsIn)
    ensures ChunksBounded(chunks, DEFAULT_BATCH_SIZE)
  {
    var now := TruncateToMinute(nowSeconds);
    var end := endTime;
    if timeFrame == "5m" {
      if JavaRem(now, 5 * 60) != 0 {
        end := now - minutes * 60;
      }
    } else if timeFrame == "1h" {
      if JavaRem(now, 60 * 60) != 0 {
        end := now - minutes * 60;
      }
    }
    var first := TruncateToMinute(startTime) - JavaRem(startTime, minutes * 60);
    assert end == AdjustedEnd(timeFrame, endTime, now, minutes);
    assert first == AlignedStart(startTime, minutes);
    chunks := AggregateWindows(symbol, timeFrame, first, minutes * 60, end, barsIn);
  }

  /** One pass of the loop of `aggregateData`: the window's 1m bars, if
      any, are reduced and added to the batch. */
  method AggregateWindow(symbol: string, timeFrame: string, first: int, step: nat, ghost k: nat, time: int,
                         barsIn: (int, int) -> seq<MarketData>,
                         chunks: seq<seq<MarketData>>, batch: seq<MarketData>)
    returns (chunks': seq<seq<MarketData>>, batch': seq<MarketData>)
    requires step > 0 && time == WindowStart(first, step, k)
    requires FullChunks(chunks) && |batch| < DEFAULT_BATCH_SIZE
    requires Flatten(chunks) + batch == WindowBars(symbol, timeFrame, first, step, k, barsIn)
    ensures FullChunks(chunks') && |batch'| < DEFAULT_BATCH_SIZE
    ensures Flatten(chunks') + batch' == WindowBars(symbol, timeFrame, first, step, k + 1, barsIn)
  {
    var oneMinuteData := barsIn(time, time + step);
    ghost var before := WindowBars(symbol, timeFrame, first, step, k, barsIn);
    ghost var after := WindowBars(symbol, timeFrame, first, step, k + 1, barsIn);
    assert WindowStart(first, step, k + 1 - 1) == time;
    chunks', batch' := chunks, batch;
    if oneMinuteData != [] {
      var bar := Reduce(symbol, timeFrame, time, oneMinuteData);
      assert after == before + [bar];
      chunks', batch' := AddToBatch(chunks, batch, bar);
    } else {
      assert after == before;
    }
  }

  /** The loop of `aggregateData`: one reduced bar per non-empty window of
      `step` seconds from `first` while the window starts before `end`. */
  method AggregateWindows(symbol: string, timeFrame: string, first: int, step: nat, end: int,
                          barsIn: (int, int) -> seq<MarketData>)
    returns (chunks: seq<seq<MarketData>>)
    requires step > 0
    ensures Flatten(chunks) == WindowBars(symbol, timeFrame, first, step, WindowCount(first, end, step), barsIn)
    ensures ChunksBounded(chunks, DEFAULT_BATCH_SIZE)
  {
    var batch: seq<MarketData> := [];
    chunks := [];
    var time := first;
    ghost var k: nat := 0;
    while time < end
      invariant time == WindowStart(first, step, k)
      invariant k > 0 ==> time - step < end
      invariant FullChunks(chunks) && |batch| < DEFAULT_BATCH_SIZE
      invariant Flatten(chunks) + batch == WindowBars(symbol, timeFrame, first, step, k, barsIn)
      decreases end - time
    {
      var nextTime := time + step;
      chunks, batch := AggregateWindow(symbol, timeFrame, first, step, k, time, barsIn, chunks, batch);
      assert step * (k + 1) == step * k + step;
      time := nextTime;
      k := k + 1;
    }
    WindowCountExact(first, end, step, k);
    chunks := FinishBatch(chunks, batch);
  }

  // ---------------------------------------------------------------------
  // The whole initialisation of one symbol
  // ---------------------------------------------------------------------

  /** The 1m bars of the first `n` slices, in slice order. */
  function SliceBars(symbol: string, plans: seq<SlicePlan>, n: nat, draw: (nat, nat) -> Draws): seq<MarketData>
    requires n <= |plans|
  {
    if n == 0 then []
    else SliceBars(symbol, plans, n - 1, draw)
         + Generate(symbol, plans[n - 1].start, WindowCount(plans[n - 1].start, plans[n - 1].end, 60),
                    plans[n - 1].initialPrice, draw, n - 1)
  }

  /** The stamps start, start + 60, ..., n of them. */
  function MinuteGrid(start: int, n: nat): (g: seq<int>)
    ensures |g| == n
  {
    seq(n, j requires 0 <= j < n => start + 60 * j)
  }

  function Timestamps(bars: seq<MarketData>): (ts: seq<int>)
    ensures |ts| == |bars|
  {
    seq(|bars|, j requires 0 <= j < |bars| => bars[j].timestamp)
  }

  lemma TimestampsAppend(a: seq<MarketData>, b: seq<MarketData>)
    ensures Timestamps(a + b) == Timestamps(a) + Timestamps(b)
  {
    assert forall j :: 0 <= j < |a| ==> (a + b)[j] == a[j];
    assert forall j :: |a| <= j < |a| + |b| ==> (a + b)[j] == b[j - |a|];
  }

  lemma MinuteGridAppend(start: int, a: nat, b: nat)
    ensures MinuteGrid(start, a + b) == MinuteGrid(start, a) + MinuteGrid(start + 60 * a, b)
  {
  }

  /** A slice's generated bars are stamped with consecutive minutes. */
  lemma GeneratedGrid(symbol: string, start: int, count: nat, initialPrice: real,
                      draw: (nat, nat) -> Draws, stream: nat)
    ensures Timestamps(Generate(symbol, start, count, initialPrice, draw, stream)) == MinuteGrid(start, count)
  {
  }

  /** Slice n - 1 starts after the minutes of the slices before it and
      covers `perThread` minutes, or all the rest when it is the last. */
  lemma SliceMinutes(start: int, end: int, n: nat)
    requires start <= end && 0 < n <= THREADS
    ensures SliceStart(start, MinutesPerThread(start, end), n - 1) == start + 60 * SlicedMinutes(start, end, n - 1)
    ensures SlicedMinutes(start, end, n - 1)
            + WindowCount(SliceStart(start, MinutesPerThread(start, end), n - 1),
                          SliceEnd(start, end, MinutesPerThread(start, end), n - 1), 60)
            == SlicedMinutes(start, end, n)
  {
    var m := MinutesPerThread(start, end);
    var before := m * (n - 1);
    assert SliceStart(start, m, n - 1) == start + 60 * before;
    var total := (end - start) / 60;
    assert 32 * m <= total && 60 * total <= end - start;
    MulMono(n - 1, 31, m);
    assert 60 * before <= end - start;
    if n < THREADS {
      assert SliceEnd(start, end, m, n - 1) == SliceStart(start, m, n - 1) + 60 * m;
      if m > 0 {
        WindowCountExact(SliceStart(start, m, n - 1), SliceEnd(start, end, m, n - 1), 60, m);
      }
      assert m * n == m * (n - 1) + m;
    }
  }

  /** The bounds of every slice are those of the plan. */
  predicate SliceBounds(plans: seq<SlicePlan>, start: int, end: int)
    requires start <= end
  {
    |plans| == THREADS
    && forall i :: 0 <= i < THREADS ==>
         plans[i].start == SliceStart(start, MinutesPerThread(start, end), i)
         && plans[i].end == SliceEnd(start, end, MinutesPerThread(start, end), i)
  }

  /** The minutes the first `n` slices cover. */
  function SlicedMinutes(start: int, end: int, n: nat): nat
    requires start <= end
  {
    if n == THREADS then WindowCount(start, end, 60) else MinutesPerThread(start, end) * n
  }

  lemma GridConcat(prev: seq<MarketData>, gen: seq<MarketData>, start: int, before: nat, count: nat)
    requires Timestamps(prev) == MinuteGrid(start, before)
    requires Timestamps(gen) == MinuteGrid(start + 60 * before, count)
    ensures Timestamps(prev + gen) == MinuteGrid(start, before + count)
  {
    TimestampsAppend(prev, gen);
    MinuteGridAppend(start, before, count);
  }

  /** Slice n - 1 of a plan begins right after the minutes before it, and
      with them covers the minutes of the first n slices. */
  lemma SlicePlanMinutes(start: int, end: int, plans: seq<SlicePlan>, n: nat)
    requires start <= end && SliceBounds(plans, start, end) && 0 < n <= THREADS
    ensures plans[n - 1].start == start + 60 * SlicedMinutes(start, end, n - 1)
    ensures SlicedMinutes(start, end, n - 1) + WindowCount(plans[n - 1].start, plans[n - 1].end, 60)
            == SlicedMinutes(start, end, n)
  {
    SliceMinutes(start, end, n);
  }

  /** Appending slice n - 1's bars to a prefix stamped minute by minute
      extends the stamps by the slice's minutes. */
  lemma SliceGridStep(symbol: string, plans: seq<SlicePlan>, draw: (nat, nat) -> Draws, n: nat,
                      start: int, before: nat)
    requires 0 < n <= |plans| && plans[n - 1].start == start + 60 * before
    requires Timestamps(SliceBars(symbol, plans, n - 1, draw)) == MinuteGrid(start, before)
    ensures Timestamps(SliceBars(symbol, plans, n, draw))
            == MinuteGrid(start, before + WindowCount(plans[n - 1].start, plans[n - 1].end, 60))
  {
    var p := plans[n - 1];
    var count := WindowCount(p.start, p.end, 60);
    var prev := SliceBars(symbol, plans, n - 1, draw);
    var gen := Generate(symbol, p.start, count, p.initialPrice, draw, n - 1);
    GeneratedGrid(symbol, p.start, count, p.initialPrice, draw, n - 1);
    GridConcat(prev, gen, start, before, count);
  }

  lemma SliceBarsCoverStep(symbol: string, start: int, end: int, plans: seq<SlicePlan>,
                           draw: (nat, nat) -> Draws, n: nat)
    requires start <= end && SliceBounds(plans, start, end) && 0 < n <= THREADS
    requires Timestamps(SliceBars(symbol, plans, n - 1, draw)) == MinuteGrid(start, SlicedMinutes(start, end, n - 1))
    ensures Timestamps(SliceBars(symbol, plans, n, draw)) == MinuteGrid(start, SlicedMinutes(start, end, n))
  {
    SlicePlanMinutes(start, end, plans, n);
    SliceGridStep(symbol, plans, draw, n, start, SlicedMinutes(start, end, n - 1));
  }

  /** The slices' bars carry one stamp per minute of [start, end), in order:
      every full slice contributes its `perThread` minutes, the last one the
      rest. */
  lemma {:induction false} SliceBarsCoverMinutes(symbol: string, start: int, end: int, plans: seq<SlicePlan>,
                                                 draw: (nat, nat) -> Draws, n: nat)
    requires start <= end && SliceBounds(plans, start, end) && n <= THREADS
    ensures Timestamps(SliceBars(symbol, plans, n, draw)) == MinuteGrid(start, SlicedMinutes(start, end, n))
  {
    if n > 0 {
      SliceBarsCoverMinutes(symbol, start, end, plans, draw, n - 1);
      SliceBarsCoverStep(symbol, start, end, plans, draw, n);
    }
  }

  /** The slice tasks, one after the other: each generates and inserts its
      bars, and the batches of all of them follow in slice order. */
  method GenerateSlices(symbol: string, plans: seq<SlicePlan>, draw: (nat, nat) -> Draws)
    returns (minuteChunks: seq<seq<MarketData>>)
    requires |plans| == THREADS
    ensures Flatten(minuteChunks) == SliceBars(symbol, plans, THREADS, draw)
    ensures ChunksBounded(minuteChunks, DEFAULT_BATCH_SIZE)
  {
    minuteChunks := [];
    for i := 0 to THREADS
      invariant Flatten(minuteChunks) == SliceBars(symbol, plans, i, draw)
      invariant ChunksBounded(minuteChunks, DEFAULT_BATCH_SIZE)
    {
      var chunks := GenerateAndInsertData(symbol, plans[i].start, plans[i].end, plans[i].initialPrice, draw, i);
      FlattenAppend(minuteChunks, chunks);
      minuteChunks := minuteChunks + chunks;
    }
  }

  /** `initializeSymbolMarketData`: nothing when the range is empty;
      otherwise the 32 slices' 1m bars, one per minute of the range, and the
      5m and 1h aggregation. */
  method InitializeSymbolMarketData(symbol: string, nowSeconds: int, lastDataTime: Option<int>,
                                    closeAt: int -> Option<real>, draw: (nat, nat) -> Draws,
                                    barsIn: (int, int) -> seq<MarketData>)
    returns (plans: seq<SlicePlan>, minuteChunks: seq<seq<MarketData>>,
             fiveMinuteChunks: seq<seq<MarketData>>, hourChunks: seq<seq<MarketData>>)
    ensures var endTime := TruncateToMinute(nowSeconds);
            var startTime := StartTime(endTime, lastDataTime);
            (startTime > endTime ==> plans == [] && minuteChunks == [] && fiveMinuteChunks == [] && hourChunks == [])
            && (startTime <= endTime ==>
                  |plans| == THREADS
                  && Flatten(minuteChunks) == SliceBars(symbol, plans, THREADS, draw)
                  && Timestamps(Flatten(minuteChunks)) == MinuteGrid(startTime, WindowCount(startTime, endTime, 60)))
    ensures var endTime := TruncateToMinute(nowSeconds);
            var startTime := StartTime(endTime, lastDataTime);
            startTime <= endTime ==>
              forall i :: 0 <= i < THREADS ==>
                plans[i] == PlanOf(symbol, startTime, endTime, StartPrice(symbol, lastDataTime, closeAt), closeAt, i)
    ensures var endTime := TruncateToMinute(nowSeconds);
            var startTime := StartTime(endTime, lastDataTime);
            var first5 := AlignedStart(startTime, 5);
            var first60 := AlignedStart(startTime, 60);
            startTime <= endTime ==>
              Flatten(fiveMinuteChunks) == WindowBars(symbol, "5m", first5, 300,
                                                      WindowCount(first5, AdjustedEnd("5m", endTime, endTime, 5), 300), barsIn)
              && Flatten(hourChunks) == WindowBars(symbol, "1h", first60, 3600,
                                                   WindowCount(first60, AdjustedEnd("1h", endTime, endTime, 60), 3600), barsIn)
    ensures ChunksBounded(minuteChunks, DEFAULT_BATCH_SIZE)
    ensures ChunksBounded(fiveMinuteChunks, DEFAULT_BATCH_SIZE) && ChunksBounded(hourChunks, DEFAULT_BATCH_SIZE)
  {
    var endTime := TruncateToMinute(nowSeconds);
    var startTime := StartTime(endTime, lastDataTime);
    plans, minuteChunks, fiveMinuteChunks, hourChunks := [], [], [], [];
    if startTime > endTime {
      return;
    }
    var lastPrice := StartPrice(symbol, lastDataTime, closeAt);
    plans := PlanSlices(symbol, startTime, endTime, lastPrice, closeAt);
    minuteChunks := GenerateSlices(symbol, plans, draw);
    SliceBarsCoverMinutes(symbol, startTime, endTime, plans, draw, THREADS);
    fiveMinuteChunks := AggregateData(symbol, startTime, endTime, "5m", 5, nowSeconds, barsIn);
    hourChunks := AggregateData(symbol, startTime, endTime, "1h", 60, nowSeconds, barsIn);
  }

  lemma {:induction false} FlattenAppend(a: seq<seq<MarketData>>, b: seq<seq<MarketData>>)
    ensures Flatten(a + b) == Flatten(a) + Flatten(b)
    decreases |b|
  {
    if b == [] {
      assert a + b == a;
    } else {
      var b' := b[..|b| - 1];
      assert (a + b)[..|a + b| - 1] == a + b';
      FlattenAppend(a, b');
    }
  }
}
