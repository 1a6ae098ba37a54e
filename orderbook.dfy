/** The order book store: per symbol and side, a sorted set of resting
    orders. A member is the JSON encoding of an order (here its
    `OrderRecord`), scored by price and last-modification time. */
module OrderBook {
  import opened Util
  import opened Model

  const BUY_SUFFIX: string := ":BUY"
  const SELL_SUFFIX: string := ":SELL"
  /** 10^7, the factor applied to the price in a score. */
  const PRECISION_FACTOR: real := 10000000.0

  /** A sorted set: member -> score. */
  type ZSet = map<OrderRecord, real>

  /** The key of the sorted set holding the orders of one symbol and side. */
  function RedisKey(symbol: string, side: Side): string
  {
    symbol + (if side == BUY then BUY_SUFFIX else SELL_SUFFIX)
  }

  /** The key an incoming order's opponents rest under: its symbol, the other side. */
  function OpponentKey(symbol: string, side: Side): string
  {
    symbol + (if side == BUY then SELL_SUFFIX else BUY_SUFFIX)
  }

  /** Different (symbol, side) pairs never share a key, so each sorted set
      holds exactly one symbol's one side. */
  lemma {:induction false} RedisKeyInjective(s1: string, d1: Side, s2: string, d2: Side)
    ensures RedisKey(s1, d1) == RedisKey(s2, d2) <==> s1 == s2 && d1 == d2
  {
    var a, b := RedisKey(s1, d1), RedisKey(s2, d2);
    if a == b {
      // ":BUY" ends in 'Y' and ":SELL" in 'L', so the sides agree ...
      assert a[|a| - 1] == (if d1 == BUY then 'Y' else 'L');
      assert b[|b| - 1] == (if d2 == BUY then 'Y' else 'L');
      assert d1 == d2;
      // ... and then so do the symbols, the prefixes of equal length.
      assert |s1| == |s2|;
      assert s1 == a[..|s1|];
      assert s2 == b[..|s2|];
    }
  }

  /** The opponent key of a side is the book key of the opposite side. */
  lemma OpponentKeyIsOppositeSide(symbol: string, side: Side)
    ensures OpponentKey(symbol, side) == RedisKey(symbol, Opposite(side))
    ensures OpponentKey(symbol, side) != RedisKey(symbol, side)
  {
    RedisKeyInjective(symbol, side, symbol, Opposite(side));
  }

  /** calculateScore, exactly (the conversion to double is not modelled):
      price * 10^7, minus the modification instant in ms for a BUY, plus it for a SELL. */
  function Score(r: OrderRecord): real
    requires r.price.Some?
  {
    r.price.value * PRECISION_FACTOR + (if r.side == BUY then -1.0 else 1.0) * (r.modifiedAt as real)
  }

  /** How the engine ranks a side's members: a buyer takes the lowest-scored
      SELL member, a seller the highest-scored BUY member. */
  predicate ScoreBetter(a: OrderRecord, b: OrderRecord)
    requires a.price.Some? && b.price.Some?
  {
    if a.side == SELL then Score(a) < Score(b) else Score(a) > Score(b)
  }

  /** Price-then-time priority as the design states it: better price, then
      earlier modification. */
  predicate PriceTimeBetter(a: OrderRecord, b: OrderRecord)
    requires a.price.Some? && b.price.Some?
  {
    var pa, pb := a.price.value, b.price.value;
    if a.side == SELL then pa < pb || (pa == pb && a.modifiedAt < b.modifiedAt)
    else pa > pb || (pa == pb && a.modifiedAt < b.modifiedAt)
  }

  /** The score order agrees with price-then-time priority for two members of
      one side whenever their price gap times 10^7 exceeds the gap between
      their modification instants in ms; at equal price it always agrees. */
  lemma ScorePriorityWhenGapIsWide(a: OrderRecord, b: OrderRecord)
    requires a.price.Some? && b.price.Some? && a.side == b.side
    requires a.price != b.price ==>
      var gap := a.price.value - b.price.value;
      var dt := (a.modifiedAt - b.modifiedAt) as real;
      (if gap < 0.0 then -gap else gap) * PRECISION_FACTOR > (if dt < 0.0 then -dt else dt)
    ensures PriceTimeBetter(a, b) ==> ScoreBetter(a, b)
  {
  }

  /** Exactly when the score ranks `a` ahead of `b` on the SELL side. */
  lemma SellScoreOrder(a: OrderRecord, b: OrderRecord)
    requires a.price.Some? && b.price.Some? && a.side == SELL && b.side == SELL
    ensures ScoreBetter(a, b) <==>
            (b.price.value - a.price.value) * PRECISION_FACTOR > (a.modifiedAt - b.modifiedAt) as real
  {
  }

  /** Exactly when the score ranks `a` ahead of `b` on the BUY side. */
  lemma BuyScoreOrder(a: OrderRecord, b: OrderRecord)
    requires a.price.Some? && b.price.Some? && a.side == BUY && b.side == BUY
    ensures ScoreBetter(a, b) <==>
            (a.price.value - b.price.value) * PRECISION_FACTOR > (a.modifiedAt - b.modifiedAt) as real
  {
  }

  /** An ask at 100.00 modified 200 s after an ask at 100.01 ranks behind it:
      the buyer is sent to the dearer ask. */
  lemma ScoreInvertsPriceExample(a: OrderRecord, b: OrderRecord)
    requires a.side == SELL && b.side == SELL
    requires a.price == Some(100.00) && a.modifiedAt == 200000
    requires b.price == Some(100.01) && b.modifiedAt == 0
    ensures PriceTimeBetter(a, b) && !ScoreBetter(a, b)
  {
  }

  /** The members of one key; an absent key is an empty set. */
  function MembersAt(zsets: map<string, ZSet>, key: string): ZSet
  {
    if key in zsets then zsets[key] else map[]
  }

  function WithMember(zsets: map<string, ZSet>, key: string, m: OrderRecord, score: real): map<string, ZSet>
  {
    zsets[key := MembersAt(zsets, key)[m := score]]
  }

  function WithoutMember(zsets: map<string, ZSet>, key: string, m: OrderRecord): map<string, ZSet>
  {
    zsets[key := MembersAt(zsets, key) - {m}]
  }

  /** Every member rests under its own symbol and side, has a price, and
      carries its own score. */
  ghost predicate WellFormed(zsets: map<string, ZSet>)
  {
    forall key, m :: key in zsets && m in zsets[key] ==>
      key == RedisKey(m.symbol, m.side) && m.price.Some? && zsets[key][m] == Score(m)
  }

  /** `m` is a member of `z` with the extreme score: the lowest when `lowest`,
      else the highest. */
  predicate IsBest(z: ZSet, m: OrderRecord, lowest: bool)
  {
    m in z && forall o :: o in z ==> if lowest then z[m] <= z[o] else z[o] <= z[m]
  }

  /** A non-empty sorted set has a lowest and a highest member. */
  lemma {:induction false} BestExists(z: ZSet, lowest: bool)
    requires |z| > 0
    ensures exists m :: IsBest(z, m, lowest)
    decreases |z|
  {
    var k :| k in z;
    var rest := z - {k};
    assert rest.Keys == z.Keys - {k};
    forall o | o in z
      ensures o == k || o in rest
    {
    }
    if |rest| == 0 {
      forall o | o in z
        ensures o == k
      {
        assert o !in rest;
      }
      assert IsBest(z, k, lowest);
    } else {
      assert |rest.Keys| == |z.Keys| - 1;
      BestExists(rest, lowest);
      var m :| IsBest(rest, m, lowest);
      if (lowest && z[k] <= z[m]) || (!lowest && z[m] <= z[k]) {
        assert IsBest(z, k, lowest);
      } else {
        assert IsBest(z, m, lowest);
      }
    }
  }

  /** Parsing a member: a fresh order whose encoding is the member itself. */
  method ParseOrderFromJson(json: OrderRecord) returns (o: Order)
    ensures fresh(o) && o.Snapshot() == json
  {
    o := new Order.WithFields(json.id, json.userId, json.symbol, json.price, json.quantity,
                              json.filledQuantity, json.unfilledQuantity, json.side, json.orderType,
                              json.status, json.stopPrice, json.takeProfitPrice, json.createdAt,
                              json.updatedAt, json.modifiedAt);
  }

  /** The sorted sets of all symbols, as one mutable store. */
  class OrderBookStore {
    var zsets: map<string, ZSet>

    ghost predicate Valid()
      reads this
    {
      WellFormed(zsets)
    }

    constructor ()
      ensures Valid() && zsets == map[]
    {
      zsets := map[];
    }

    /** The best resting opponent of `o`, parsed into a fresh order, or null
        when the opposite side is empty. */
    method GetBestOpponentOrder(o: Order) returns (p: Order?)
      requires Valid()
      ensures var z := MembersAt(zsets, OpponentKey(o.symbol, o.side));
              (p == null <==> |z| == 0) &&
              (p != null ==> fresh(p) && IsBest(z, p.Snapshot(), o.side == BUY))
    {
      var z := MembersAt(zsets, OpponentKey(o.symbol, o.side));
      if |z| == 0 {
        return null;
      }
      BestExists(z, o.side == BUY);
      var best :| IsBest(z, best, o.side == BUY);
      p := ParseOrderFromJson(best);
    }

    /** Adds the order's encoding at its score under its own key. */
    method SaveOrderToRedis(o: Order)
      requires Valid() && o.price.Some?
      modifies this
      ensures Valid()
      ensures zsets == WithMember(old(zsets), RedisKey(o.symbol, o.side), o.Snapshot(), Score(o.Snapshot()))
    {
      zsets := WithMember(zsets, RedisKey(o.symbol, o.side), o.Snapshot(), Score(o.Snapshot()));
    }

    /** Removes exactly the member `originalJson` (the order's encoding before
        it was changed) from the order's key; an absent member is a no-op. */
    method RemoveOrderFromRedis(o: Order, originalJson: OrderRecord)
      requires Valid()
      modifies this
      ensures Valid()
      ensures zsets == WithoutMember(old(zsets), RedisKey(o.symbol, o.side), originalJson)
    {
      zsets := WithoutMember(zsets, RedisKey(o.symbol, o.side), originalJson);
    }

    /** Removes the member `originalJson`, then adds the order's current
        encoding at its recomputed score. */
    method UpdateOrderInRedis(o: Order, originalJson: OrderRecord)
      requires Valid() && o.price.Some?
      modifies this
      ensures Valid()
      ensures zsets == WithMember(WithoutMember(old(zsets), RedisKey(o.symbol, o.side), originalJson),
                                  RedisKey(o.symbol, o.side), o.Snapshot(), Score(o.Snapshot()))
    {
      var key := RedisKey(o.symbol, o.side);
      zsets := WithoutMember(zsets, key, originalJson);
      zsets := WithMember(zsets, key, o.Snapshot(), Score(o.Snapshot()));
    }
  }

  /** The persistence message for one trade, serialised when it is sent: the
      trade's two orders as they are at that moment, and the trade. */
  function MatchedMessage(t: Trade): TradeOrdersMessage
    reads t.buyOrder, t.sellOrder
  {
    TradeOrdersMessage(t.buyOrder.Snapshot(), t.sellOrder.Snapshot(), TradeSnapshot(t))
  }

  /** Sends one persistence message per trade, in list order. */
  method SaveAllOrdersAndTrades(trades: seq<Trade>) returns (sent: seq<TradeOrdersMessage>)
    ensures |sent| == |trades|
    ensures forall i :: 0 <= i < |trades| ==> sent[i] == MatchedMessage(trades[i])
  {
    sent := [];
    for i := 0 to |trades|
      invariant |sent| == i
      invariant forall j :: 0 <= j < i ==> sent[j] == MatchedMessage(trades[j])
    {
      sent := sent + [MatchedMessage(trades[i])];
    }
  }
}
