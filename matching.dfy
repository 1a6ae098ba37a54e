/** The matching engine: an incoming order is repeatedly paired with the best
    resting opponent until it is exhausted, the opposite side is empty, or
    (for priced orders) the best opponent no longer crosses; a priced
    remainder then rests in the book.

    Everything the engine sends to the message bus is returned as an ordered
    event log. Trade ids come from a monotonic source: the k-th trade of a
    call gets `firstTradeId + k`. The clock is the parameter `now` (epoch ms). */
module Matching {
  import opened Util
  import opened Model
  import opened OrderBook
  import UserOrderProducer

  /** One send to the message bus. */
  datatype Event =
    | RecentTrade(trade: TradeRecord)                             // "recent-trades"
    | KlineUpdate(symbol: string, price: real, tradeTime: int)   // "kline-updates", epoch seconds
    | BookDelta(symbol: string, side: Side, price: real, quantity: real)  // signed quantity change
    | OrderUpdate(update: UserOrderProducer.Message)            // "user-order-updates"
    | Matched(matched: TradeOrdersMessage)                      // persistence channel

  /** updateOrdersStatus: COMPLETED exactly when nothing is left unfilled. */
  function StatusFor(unfilled: real): OrderStatus
  {
    if unfilled == 0.0 then COMPLETED else PARTIALLY_FILLED
  }

  /** An order after a fill of `q` at instant `now`: filled grows by `q`,
      unfilled shrinks by `q`, the status is restamped and `updatedAt` set;
      every other field, `modifiedAt` and the price included, is kept. */
  function Filled(r: OrderRecord, q: real, now: int): OrderRecord
  {
    r.(filledQuantity := r.filledQuantity + q,
       unfilledQuantity := r.unfilledQuantity - q,
       status := StatusFor(r.unfilledQuantity - q),
       updatedAt := now)
  }

  /** A fill leaves the order's score, hence its rank in the book, unchanged. */
  lemma FillKeepsScore(r: OrderRecord, q: real, now: int)
    requires r.price.Some?
    ensures Filled(r, q, now).price.Some? && Score(Filled(r, q, now)) == Score(r)
  {
  }

  /** The price check of the priced loop: a BUY needs its price at or above the
      opponent's, a SELL at or below. */
  predicate Crosses(incoming: OrderRecord, opponent: OrderRecord)
    requires incoming.price.Some? && opponent.price.Some?
  {
    (incoming.side == BUY && incoming.price.value >= opponent.price.value) ||
    (incoming.side == SELL && incoming.price.value <= opponent.price.value)
  }

  /** One iteration of the matching loop, as values: the book member taken
      (the opponent's encoding before the fill, used as its identity), the
      trade price and quantity, and both orders after the fill. */
  datatype Fill = Fill(
    taken: OrderRecord,
    price: real,
    quantity: real,
    incomingAfter: OrderRecord,
    opponentAfter: OrderRecord)

  predicate Priced(fills: seq<Fill>)
  {
    forall i :: 0 <= i < |fills| ==> fills[i].opponentAfter.price.Some?
  }

  /** The book after one iteration: the taken member is removed; an opponent
      with quantity left is added back under its new encoding and score. */
  function BookStep(zsets: map<string, ZSet>, f: Fill): map<string, ZSet>
    requires f.opponentAfter.price.Some?
  {
    var key := RedisKey(f.opponentAfter.symbol, f.opponentAfter.side);
    var removed := WithoutMember(zsets, key, f.taken);
    if f.opponentAfter.unfilledQuantity == 0.0 then removed
    else WithMember(removed, key, f.opponentAfter, Score(f.opponentAfter))
  }

  function BookAfter(zsets: map<string, ZSet>, fills: seq<Fill>): map<string, ZSet>
    requires Priced(fills)
  {
    if fills == [] then zsets
    else BookStep(BookAfter(zsets, fills[..|fills| - 1]), fills[|fills| - 1])
  }

  /** The incoming order before iteration `i` (after all of them when i == |fills|). */
  function IncomingBefore(start: OrderRecord, fills: seq<Fill>, i: nat): OrderRecord
    requires i <= |fills|
  {
    if i == 0 then start else fills[i - 1].incomingAfter
  }

  function FinalIncoming(start: OrderRecord, fills: seq<Fill>): OrderRecord
  {
    IncomingBefore(start, fills, |fills|)
  }

  /** One iteration as the engine performs it: the incoming order still has
      quantity; the taken member is the best of the opposite side; under a
      price check it crosses; `min(unfilled, unfilled)` is filled on both. */
  ghost predicate StepOk(before: OrderRecord, zsets: map<string, ZSet>, f: Fill, now: int, priceChecked: bool)
  {
    && before.unfilledQuantity > 0.0
    && IsBest(MembersAt(zsets, OpponentKey(before.symbol, before.side)), f.taken, before.side == BUY)
    && f.taken.price == Some(f.price)
    && (priceChecked ==> before.price.Some? && Crosses(before, f.taken))
    && f.quantity == MinReal(before.unfilledQuantity, f.taken.unfilledQuantity)
    && f.incomingAfter == Filled(before, f.quantity, now)
    && f.opponentAfter == Filled(f.taken, f.quantity, now)
  }

  /** The whole run of the loop from incoming order `start` and book `zsets`. */
  ghost predicate FillChain(start: OrderRecord, zsets: map<string, ZSet>, fills: seq<Fill>, now: int, priceChecked: bool)
  {
    && Priced(fills)
    && forall i {:trigger IncomingBefore(start, fills, i)} :: 0 <= i < |fills| ==>
         StepOk(IncomingBefore(start, fills, i), BookAfter(zsets, fills[..i]), fills[i], now, priceChecked)
  }

  /** Why the loop stopped: nothing left to fill, an empty opposite side, or
      (under a price check) a best opponent that does not cross. */
  ghost predicate Stopped(incoming: OrderRecord, zsets: map<string, ZSet>, priceChecked: bool)
  {
    var z := MembersAt(zsets, OpponentKey(incoming.symbol, incoming.side));
    || incoming.unfilledQuantity <= 0.0
    || |z| == 0
    || (priceChecked && incoming.price.Some? &&
        exists m :: IsBest(z, m, incoming.side == BUY) && m.price.Some? && !Crosses(incoming, m))
  }

  /** The trade of one iteration, given the two orders as they are encoded. */
  function TradeRecordOf(incoming: OrderRecord, opponent: OrderRecord, f: Fill, id: nat, now: int): TradeRecord
  {
    TradeRecord(id,
                if incoming.side == BUY then incoming else opponent,
                if incoming.side == SELL then incoming else opponent,
                incoming.symbol, f.price, f.quantity, now, DirectionOf(incoming.side), incoming.id)
  }

  /** The sends of one iteration, in order: trade tape, candle seed, the
      opponent's book delta (a reduction) and the opponent's order update. */
  function FillEvents(f: Fill, id: nat, now: int): seq<Event>
  {
    var t := TradeRecordOf(f.incomingAfter, f.opponentAfter, f, id, now);
    [RecentTrade(t),
     KlineUpdate(t.symbol, t.price, now / 1000),
     BookDelta(f.opponentAfter.symbol, f.opponentAfter.side, f.price, -f.quantity),
     OrderUpdate(UserOrderProducer.SendOrderUpdate(f.opponentAfter))]
  }

  function LoopEvents(fills: seq<Fill>, firstTradeId: nat, now: int): seq<Event>
  {
    if fills == [] then []
    else LoopEvents(fills[..|fills| - 1], firstTradeId, now) +
         FillEvents(fills[|fills| - 1], firstTradeId + |fills| - 1, now)
  }

  /** The persistence message of one trade, sent after the loop: it carries the
      incoming order's final state `incoming`. */
  function MessageFor(incoming: OrderRecord, f: Fill, id: nat, now: int): TradeOrdersMessage
  {
    var t := TradeRecordOf(incoming, f.opponentAfter, f, id, now);
    TradeOrdersMessage(t.buyOrder, t.sellOrder, t)
  }

  function MatchedEvents(incoming: OrderRecord, fills: seq<Fill>, firstTradeId: nat, now: int): seq<Event>
  {
    seq(|fills|, i requires 0 <= i < |fills| => Matched(MessageFor(incoming, fills[i], firstTradeId + i, now)))
  }

  /** The order on the incoming side of a trade, and the resting one. */
  function TakerOf(t: Trade, side: Side): Order
  {
    if side == BUY then t.buyOrder else t.sellOrder
  }

  function OpponentOf(t: Trade, side: Side): Order
  {
    if side == BUY then t.sellOrder else t.buyOrder
  }

  /** Trade `t` is the one built for fill `f`: priced at the opponent, for the
      filled quantity, buy and sell orders chosen by the taker's side, the
      taker's id and direction. */
  ghost predicate TradeFor(t: Trade, incoming: Order, side: Side, f: Fill, id: nat, now: int)
    reads OpponentOf(t, side)
  {
    && TakerOf(t, side) == incoming
    && OpponentOf(t, side) != incoming
    && OpponentOf(t, side).Snapshot() == f.opponentAfter
    && t.id == id
    && t.symbol == f.incomingAfter.symbol
    && t.price == f.price
    && t.quantity == f.quantity
    && t.tradeTime == now
    && t.direction == DirectionOf(side)
    && t.takerOrderId == f.incomingAfter.id
  }

  /** The resting orders of a list of trades. */
  ghost function Opponents(trades: seq<Trade>, side: Side): set<Order>
  {
    set i | 0 <= i < |trades| :: OpponentOf(trades[i], side)
  }

  /** Trade `i` of `trades` is the one built for fill `i`, with id
      `firstTradeId + i`. */
  ghost predicate TradesFor(trades: seq<Trade>, incoming: Order, side: Side, fills: seq<Fill>, firstTradeId: nat, now: int)
    reads Opponents(trades, side)
  {
    && |trades| == |fills|
    && forall i :: 0 <= i < |trades| ==> TradeFor(trades[i], incoming, side, fills[i], firstTradeId + i, now)
  }

  lemma TradesExtend(trades: seq<Trade>, t: Trade, incoming: Order, side: Side, fills: seq<Fill>, fills': seq<Fill>,
                     firstTradeId: nat, now: int)
    requires TradesFor(trades, incoming, side, fills, firstTradeId, now)
    requires |fills'| == |fills| + 1 && fills'[..|fills|] == fills
    requires TradeFor(t, incoming, side, fills'[|fills|], firstTradeId + |fills|, now)
    ensures TradesFor(trades + [t], incoming, side, fills', firstTradeId, now)
    ensures incoming !in Opponents(trades, side) ==> incoming !in Opponents(trades + [t], side)
  {
    forall i | 0 <= i < |trades| + 1
      ensures TradeFor((trades + [t])[i], incoming, side, fills'[i], firstTradeId + i, now)
    {
      if i < |trades| {
        assert fills'[i] == fills[i];
      }
    }
  }

  /** updateOrdersStatus: each listed order gets the status its unfilled
      quantity calls for and `updatedAt := now`; nothing else changes. */
  method UpdateOrdersStatus(orders: seq<Order>, now: int)
    modifies set o | o in orders
    ensures forall o :: o in orders ==>
      o.Snapshot() == old(o.Snapshot()).(status := StatusFor(old(o.unfilledQuantity)), updatedAt := now)
  {
    for i := 0 to |orders|
      invariant forall o :: o in orders ==>
        o.Snapshot() == if o in orders[..i]
                        then old(o.Snapshot()).(status := StatusFor(old(o.unfilledQuantity)), updatedAt := now)
                        else old(o.Snapshot())
    {
      var order := orders[i];
      if order.unfilledQuantity == 0.0 {
        order.status := COMPLETED;
      } else {
        order.status := PARTIALLY_FILLED;
      }
      order.updatedAt := now;
    }
  }

  /** The quantity updates of one iteration: `min` of the two unfilled
      quantities moves from unfilled to filled on both orders, whose
      statuses are then restamped. */
  method ApplyFill(incoming: Order, p1: Order, now: int) returns (matched: real)
    requires p1 != incoming
    modifies incoming, p1
    ensures matched == MinReal(old(incoming.unfilledQuantity), old(p1.unfilledQuantity))
    ensures incoming.Snapshot() == Filled(old(incoming.Snapshot()), matched, now)
    ensures p1.Snapshot() == Filled(old(p1.Snapshot()), matched, now)
  {
    matched := MinReal(incoming.unfilledQuantity, p1.unfilledQuantity);
    incoming.filledQuantity := incoming.filledQuantity + matched;
    incoming.unfilledQuantity := incoming.unfilledQuantity - matched;
    p1.filledQuantity := p1.filledQuantity + matched;
    p1.unfilledQuantity := p1.unfilledQuantity - matched;
    UpdateOrdersStatus([incoming, p1], now);
  }

  /** The book update of one iteration: the opponent's old member goes;
      an opponent with quantity left comes back under its new encoding. */
  method ReplaceOpponent(book: OrderBookStore, p1: Order, originalP1Json: OrderRecord, ghost f: Fill)
    requires book.Valid() && p1.price.Some?
    requires f.taken == originalP1Json && f.opponentAfter == p1.Snapshot()
    modifies book
    ensures book.Valid()
    ensures book.zsets == BookStep(old(book.zsets), f)
  {
    if p1.unfilledQuantity == 0.0 {
      book.RemoveOrderFromRedis(p1, originalP1Json);
    } else {
      book.UpdateOrderInRedis(p1, originalP1Json);
    }
  }

  /** One iteration of the loop once opponent `p1` (parsed from member
      `originalP1Json`) has been found to match. */
  method MatchStep(book: OrderBookStore, incoming: Order, p1: Order, originalP1Json: OrderRecord,
                   now: int, tradeId: nat)
    returns (trade: Trade, events: seq<Event>, ghost f: Fill)
    requires book.Valid() && p1 != incoming
    requires p1.Snapshot() == originalP1Json
    requires originalP1Json in MembersAt(book.zsets, OpponentKey(incoming.symbol, incoming.side))
    modifies book, incoming, p1
    ensures book.Valid()
    ensures f.taken == originalP1Json && originalP1Json.price == Some(f.price)
    ensures f.quantity == MinReal(old(incoming.unfilledQuantity), originalP1Json.unfilledQuantity)
    ensures f.incomingAfter == Filled(old(incoming.Snapshot()), f.quantity, now)
    ensures f.opponentAfter == Filled(originalP1Json, f.quantity, now)
    ensures incoming.Snapshot() == f.incomingAfter && p1.Snapshot() == f.opponentAfter
    ensures book.zsets == BookStep(old(book.zsets), f)
    ensures events == FillEvents(f, tradeId, now)
    ensures TradeFor(trade, incoming, incoming.side, f, tradeId, now) && OpponentOf(trade, incoming.side) == p1
  {
    var matched := ApplyFill(incoming, p1, now);

    trade := Trade(tradeId,
                   if incoming.side == BUY then incoming else p1,
                   if incoming.side == SELL then incoming else p1,
                   incoming.symbol, p1.price.value, matched, now,
                   DirectionOf(incoming.side), incoming.id);
    f := Fill(originalP1Json, p1.price.value, matched, incoming.Snapshot(), p1.Snapshot());
    events := [RecentTrade(TradeSnapshot(trade)), KlineUpdate(trade.symbol, trade.price, trade.tradeTime / 1000)];

    ReplaceOpponent(book, p1, originalP1Json, f);

    events := events + [BookDelta(p1.symbol, p1.side, p1.price.value, -matched),
                        OrderUpdate(UserOrderProducer.SendOrderUpdate(p1.Snapshot()))];
  }

  /** The book shrinks by one member when the opponent is used up, and does
      not grow otherwise: the measure that ends the matching loop. */
  lemma StepShrinks(zsets: map<string, ZSet>, key: string, f: Fill)
    requires f.opponentAfter.price.Some?
    requires key == RedisKey(f.opponentAfter.symbol, f.opponentAfter.side)
    requires f.taken in MembersAt(zsets, key)
    ensures |MembersAt(BookStep(zsets, f), key)| <= |MembersAt(zsets, key)|
    ensures f.opponentAfter.unfilledQuantity == 0.0 ==>
              |MembersAt(BookStep(zsets, f), key)| < |MembersAt(zsets, key)|
  {
    var z := MembersAt(zsets, key);
    var removed := z - {f.taken};
    assert removed.Keys == z.Keys - {f.taken};
    assert |removed.Keys| == |z.Keys| - 1;
    if f.opponentAfter.unfilledQuantity != 0.0 {
      var added := removed[f.opponentAfter := Score(f.opponentAfter)];
      assert added.Keys == removed.Keys + {f.opponentAfter};
      assert MembersAt(BookStep(zsets, f), key) == added;
    } else {
      assert MembersAt(BookStep(zsets, f), key) == removed;
    }
  }

  /** A chain extended by one step that starts from where the chain ended. */
  lemma {:induction false} ChainExtend(start: OrderRecord, zsets: map<string, ZSet>, fills: seq<Fill>, f: Fill,
                                       now: int, priceChecked: bool)
    requires FillChain(start, zsets, fills, now, priceChecked)
    requires f.opponentAfter.price.Some?
    requires StepOk(FinalIncoming(start, fills), BookAfter(zsets, fills), f, now, priceChecked)
    ensures FillChain(start, zsets, fills + [f], now, priceChecked)
    ensures FinalIncoming(start, fills + [f]) == f.incomingAfter
    ensures BookAfter(zsets, fills + [f]) == BookStep(BookAfter(zsets, fills), f)
  {
    var fs := fills + [f];
    assert fs[..|fills|] == fills;
    assert Priced(fs);
    forall i | 0 <= i < |fs|
      ensures StepOk(IncomingBefore(start, fs, i), BookAfter(zsets, fs[..i]), fs[i], now, priceChecked)
    {
      if i < |fills| {
        assert fs[..i] == fills[..i] && fs[i] == fills[i];
        assert IncomingBefore(start, fs, i) == IncomingBefore(start, fills, i);
        assert StepOk(IncomingBefore(start, fills, i), BookAfter(zsets, fills[..i]), fills[i], now, priceChecked);
      } else {
        assert fs[..i] == fills;
        assert IncomingBefore(start, fs, i) == FinalIncoming(start, fills);
      }
    }
  }

  lemma EventsExtend(fills: seq<Fill>, f: Fill, firstTradeId: nat, id: nat, now: int, log: seq<Event>, sends: seq<Event>)
    requires log == LoopEvents(fills, firstTradeId, now)
    requires id == firstTradeId + |fills| && sends == FillEvents(f, id, now)
    ensures log + sends == LoopEvents(fills + [f], firstTradeId, now)
  {
    assert (fills + [f])[..|fills|] == fills;
  }

  /** The persistence message of a trade, serialised after the loop, holds the
      incoming order in its final state and the opponent as the fill left it. */
  lemma MatchedMessageOf(t: Trade, incoming: Order, side: Side, f: Fill, id: nat, now: int)
    requires TradeFor(t, incoming, side, f, id, now)
    requires incoming.side == side
    requires f.incomingAfter.symbol == incoming.symbol && f.incomingAfter.id == incoming.id
    ensures MatchedMessage(t) == MessageFor(incoming.Snapshot(), f, id, now)
  {
  }

  /** A member of a well-formed book rests under its own key and is priced. */
  lemma MemberFacts(zsets: map<string, ZSet>, key: string, m: OrderRecord)
    requires WellFormed(zsets) && m in MembersAt(zsets, key)
    ensures key == RedisKey(m.symbol, m.side) && m.price.Some?
  {
  }

  /** What the matching loop keeps true, on values: the fills so far form a
      chain from the starting order and book, `cur` and `zsets` are the
      incoming order and the book where that chain leaves them, and the log
      holds the sends of every iteration. */
  ghost predicate Advanced(start: OrderRecord, book0: map<string, ZSet>, fills: seq<Fill>, loopEvents: seq<Event>,
                           priceChecked: bool, now: int, firstTradeId: nat, cur: OrderRecord, zsets: map<string, ZSet>)
  {
    && cur.side == start.side && cur.symbol == start.symbol && cur.id == start.id
    && cur.price == start.price && cur.orderType == start.orderType
    && FillChain(start, book0, fills, now, priceChecked)
    && cur == FinalIncoming(start, fills)
    && (|fills| > 0 ==> start.unfilledQuantity > 0.0)
    && zsets == BookAfter(book0, fills)
    && (forall i :: 0 <= i < |fills| ==>
          fills[i].incomingAfter.symbol == start.symbol && fills[i].incomingAfter.id == start.id)
    && loopEvents == LoopEvents(fills, firstTradeId, now)
  }

  /** One more iteration carries the loop's invariant forward. */
  lemma AdvanceStep(start: OrderRecord, book0: map<string, ZSet>, fills: seq<Fill>, loopEvents: seq<Event>,
                    priceChecked: bool, now: int, firstTradeId: nat, cur: OrderRecord, zsets: map<string, ZSet>, f: Fill,
                    id: nat, fills': seq<Fill>, loopEvents': seq<Event>, cur': OrderRecord, zsets': map<string, ZSet>)
    requires Advanced(start, book0, fills, loopEvents, priceChecked, now, firstTradeId, cur, zsets)
    requires f.opponentAfter.price.Some?
    requires StepOk(cur, zsets, f, now, priceChecked)
    requires id == firstTradeId + |fills|
    requires fills' == fills + [f] && loopEvents' == loopEvents + FillEvents(f, id, now)
    requires cur' == f.incomingAfter && zsets' == BookStep(zsets, f)
    ensures Advanced(start, book0, fills', loopEvents', priceChecked, now, firstTradeId, cur', zsets')
  {
    ChainExtend(start, book0, fills, f, now, priceChecked);
    EventsExtend(fills, f, firstTradeId, id, now, loopEvents, FillEvents(f, id, now));
    var fs := fills + [f];
    forall i | 0 <= i < |fs|
      ensures fs[i].incomingAfter.symbol == start.symbol && fs[i].incomingAfter.id == start.id
    {
      if i < |fills| {
        assert fs[i] == fills[i];
      }
    }
  }

  /** The loop's invariant on the live objects. */
  ghost predicate Progress(book: OrderBookStore, incoming: Order, start: OrderRecord, book0: map<string, ZSet>,
                           fills: seq<Fill>, loopEvents: seq<Event>, priceChecked: bool, now: int, firstTradeId: nat)
    reads book, incoming
  {
    && book.Valid()
    && Advanced(start, book0, fills, loopEvents, priceChecked, now, firstTradeId, incoming.Snapshot(), book.zsets)
  }

  lemma ProgressAtStart(book: OrderBookStore, incoming: Order, priceChecked: bool, now: int, firstTradeId: nat)
    requires book.Valid()
    ensures Progress(book, incoming, incoming.Snapshot(), book.zsets, [], [], priceChecked, now, firstTradeId)
  {
  }

  /** One turn of the matching loop: find the best opponent; stop when there
      is none or it does not cross; otherwise fill against it, producing
      trade `tradeId`. */
  method MatchTurn(book: OrderBookStore, incoming: Order, priceChecked: bool, now: int, firstTradeId: nat,
                   tradeId: nat, ghost start: OrderRecord, ghost book0: map<string, ZSet>,
                   loopEvents: seq<Event>, ghost fills: seq<Fill>)
    returns (trade: Option<Trade>, loopEvents': seq<Event>, ghost fills': seq<Fill>)
    requires Progress(book, incoming, start, book0, fills, loopEvents, priceChecked, now, firstTradeId)
    requires tradeId == firstTradeId + |fills|
    requires incoming.unfilledQuantity > 0.0
    requires priceChecked ==> incoming.price.Some?
    modifies book, incoming
    ensures Progress(book, incoming, start, book0, fills', loopEvents', priceChecked, now, firstTradeId)
    ensures trade.None? ==> Stopped(incoming.Snapshot(), book.zsets, priceChecked) && fills' == fills
    ensures trade.Some? ==> |fills'| == |fills| + 1 && fills'[..|fills|] == fills &&
                            TradeFor(trade.value, incoming, start.side, fills'[|fills|], tradeId, now)
    ensures |MembersAt(book.zsets, OpponentKey(start.symbol, start.side))| +
            (if trade.Some? && incoming.unfilledQuantity > 0.0 then 1 else 0) <
            old(|MembersAt(book.zsets, OpponentKey(start.symbol, start.side))|) + 1
  {
    loopEvents', fills' := loopEvents, fills;
    ghost var zBefore := book.zsets;
    ghost var before := incoming.Snapshot();
    var oppKey := OpponentKey(incoming.symbol, incoming.side);
    var p1 := book.GetBestOpponentOrder(incoming);
    if p1 == null {
      return None, loopEvents', fills';
    }
    var originalP1Json := p1.Snapshot();
    MemberFacts(book.zsets, oppKey, originalP1Json);
    if priceChecked && !Crosses(incoming.Snapshot(), originalP1Json) {
      assert IsBest(MembersAt(book.zsets, oppKey), originalP1Json, incoming.side == BUY);
      return None, loopEvents', fills';
    }
    assert IsBest(MembersAt(zBefore, OpponentKey(before.symbol, before.side)), originalP1Json, before.side == BUY);
    assert priceChecked ==> before.price.Some? && Crosses(before, originalP1Json);
    var t, evs, f := MatchStep(book, incoming, p1, originalP1Json, now, tradeId);
    assert StepOk(before, zBefore, f, now, priceChecked);
    StepShrinks(zBefore, oppKey, f);
    trade, loopEvents', fills' := Some(t), loopEvents + evs, fills + [f];
    AdvanceStep(start, book0, fills, loopEvents, priceChecked, now, firstTradeId, before, zBefore, f,
                tradeId, fills', loopEvents', incoming.Snapshot(), book.zsets);
    assert fills'[..|fills|] == fills;
  }

  /** The end of the loop: when any trade happened, one persistence message
      per trade, in trade order, each serialising the incoming order in its
      final state. */
  method PersistTrades(trades: seq<Trade>, incoming: Order, ghost fills: seq<Fill>, firstTradeId: nat, now: int)
    returns (matched: seq<Event>)
    requires TradesFor(trades, incoming, incoming.side, fills, firstTradeId, now)
    requires forall i :: 0 <= i < |fills| ==>
               fills[i].incomingAfter.symbol == incoming.symbol && fills[i].incomingAfter.id == incoming.id
    ensures matched == MatchedEvents(incoming.Snapshot(), fills, firstTradeId, now)
  {
    matched := [];
    if trades != [] {
      var sent := SaveAllOrdersAndTrades(trades);
      forall i | 0 <= i < |trades|
        ensures sent[i] == MessageFor(incoming.Snapshot(), fills[i], firstTradeId + i, now)
      {
        MatchedMessageOf(trades[i], incoming, incoming.side, fills[i], firstTradeId + i, now);
      }
      matched := seq(|sent|, i requires 0 <= i < |sent| => Matched(sent[i]));
      assert matched == MatchedEvents(incoming.Snapshot(), fills, firstTradeId, now);
    } else {
      assert MatchedEvents(incoming.Snapshot(), fills, firstTradeId, now) == [];
    }
  }

  /** The body of the loop: one turn, with its trade appended to the list. */
  method LoopBody(book: OrderBookStore, incoming: Order, priceChecked: bool, now: int, firstTradeId: nat,
                  ghost start: OrderRecord, ghost book0: map<string, ZSet>, ghost oppKey: string,
                  trades: seq<Trade>, loopEvents: seq<Event>, ghost fills: seq<Fill>)
    returns (stop: bool, trades': seq<Trade>, loopEvents': seq<Event>, ghost fills': seq<Fill>)
    requires Progress(book, incoming, start, book0, fills, loopEvents, priceChecked, now, firstTradeId)
    requires TradesFor(trades, incoming, start.side, fills, firstTradeId, now)
    requires incoming !in Opponents(trades, start.side)
    requires oppKey == OpponentKey(start.symbol, start.side)
    requires incoming.unfilledQuantity > 0.0
    requires priceChecked ==> incoming.price.Some?
    modifies book, incoming
    ensures Progress(book, incoming, start, book0, fills', loopEvents', priceChecked, now, firstTradeId)
    ensures TradesFor(trades', incoming, start.side, fills', firstTradeId, now)
    ensures incoming !in Opponents(trades', start.side)
    ensures stop ==> Stopped(incoming.Snapshot(), book.zsets, priceChecked)
    ensures !stop ==> |MembersAt(book.zsets, oppKey)| + (if incoming.unfilledQuantity > 0.0 then 1 else 0) <
                      old(|MembersAt(book.zsets, oppKey)|) + 1
  {
    var trade;
    trade, loopEvents', fills' :=
      MatchTurn(book, incoming, priceChecked, now, firstTradeId, firstTradeId + |trades|, start, book0, loopEvents, fills);
    if trade.None? {
      return true, trades, loopEvents', fills';
    }
    TradesExtend(trades, trade.value, incoming, start.side, fills, fills', firstTradeId, now);
    stop, trades' := false, trades + [trade.value];
  }

  /** The loop itself: turns until the incoming order is exhausted or a turn
      stops. */
  method RunLoop(book: OrderBookStore, incoming: Order, priceChecked: bool, now: int, firstTradeId: nat)
    returns (trades: seq<Trade>, loopEvents: seq<Event>, ghost fills: seq<Fill>)
    requires book.Valid()
    requires priceChecked && incoming.unfilledQuantity > 0.0 ==> incoming.price.Some?
    modifies book, incoming
    ensures Progress(book, incoming, old(incoming.Snapshot()), old(book.zsets), fills, loopEvents, priceChecked, now, firstTradeId)
    ensures Stopped(incoming.Snapshot(), book.zsets, priceChecked)
    ensures TradesFor(trades, incoming, incoming.side, fills, firstTradeId, now)
  {
    ghost var start := incoming.Snapshot();
    ghost var book0 := book.zsets;
    ghost var oppKey := OpponentKey(start.symbol, start.side);
    loopEvents, trades, fills := [], [], [];
    ProgressAtStart(book, incoming, priceChecked, now, firstTradeId);
    while incoming.unfilledQuantity > 0.0
      invariant Progress(book, incoming, start, book0, fills, loopEvents, priceChecked, now, firstTradeId)
      invariant TradesFor(trades, incoming, start.side, fills, firstTradeId, now)
      invariant incoming !in Opponents(trades, start.side)
      invariant priceChecked && start.unfilledQuantity > 0.0 ==> incoming.price.Some?
      decreases |MembersAt(book.zsets, oppKey)| + (if incoming.unfilledQuantity > 0.0 then 1 else 0)
    {
      var stop;
      stop, trades, loopEvents, fills :=
        LoopBody(book, incoming, priceChecked, now, firstTradeId, start, book0, oppKey, trades, loopEvents, fills);
      if stop {
        break;
      }
    }
  }

  /** The matching loop shared by limit orders (`priceChecked`) and market
      orders, followed by the batch of persistence messages when any trade
      happened. */
  method MatchLoop(book: OrderBookStore, incoming: Order, priceChecked: bool, now: int, firstTradeId: nat)
    returns (trades: seq<Trade>, events: seq<Event>, ghost fills: seq<Fill>)
    requires book.Valid()
    requires priceChecked && incoming.unfilledQuantity > 0.0 ==> incoming.price.Some?
    modifies book, incoming
    ensures book.Valid()
    ensures FillChain(old(incoming.Snapshot()), old(book.zsets), fills, now, priceChecked)
    ensures incoming.Snapshot() == FinalIncoming(old(incoming.Snapshot()), fills)
    ensures incoming.price == old(incoming.price) && incoming.orderType == old(incoming.orderType)
    ensures incoming.unfilledQuantity > 0.0 ==> old(incoming.unfilledQuantity) > 0.0
    ensures book.zsets == BookAfter(old(book.zsets), fills)
    ensures Stopped(incoming.Snapshot(), book.zsets, priceChecked)
    ensures TradesFor(trades, incoming, incoming.side, fills, firstTradeId, now)
    ensures events == LoopEvents(fills, firstTradeId, now) +
                      MatchedEvents(incoming.Snapshot(), fills, firstTradeId, now)
  {
    var loopEvents;
    trades, loopEvents, fills := RunLoop(book, incoming, priceChecked, now, firstTradeId);
    var matched := PersistTrades(trades, incoming, fills, firstTradeId, now);
    events := loopEvents + matched;
  }

  /** The quantity traded over a run of fills. */
  function SumQuantities(fills: seq<Fill>): real
  {
    if fills == [] then 0.0 else SumQuantities(fills[..|fills| - 1]) + fills[|fills| - 1].quantity
  }

  /** Along a chain the incoming order only moves quantity from unfilled to
      filled: their sum is conserved, the filled part grows by exactly what
      was traded, the remainder never goes below zero, the status matches the
      remainder, and every other field (side, symbol, price, type, times but
      `updatedAt`) is the one it started with. */
  lemma {:induction false} IncomingAlongChain(start: OrderRecord, zsets: map<string, ZSet>, fills: seq<Fill>,
                                              now: int, priceChecked: bool, k: nat)
    requires FillChain(start, zsets, fills, now, priceChecked)
    requires k <= |fills|
    ensures var r := IncomingBefore(start, fills, k);
            && r.filledQuantity + r.unfilledQuantity == start.filledQuantity + start.unfilledQuantity
            && r.filledQuantity == start.filledQuantity + SumQuantities(fills[..k])
            && r.(filledQuantity := start.filledQuantity, unfilledQuantity := start.unfilledQuantity,
                  status := start.status, updatedAt := start.updatedAt) == start
            && (k > 0 ==> r.unfilledQuantity >= 0.0 && r.status == StatusFor(r.unfilledQuantity) && r.updatedAt == now)
  {
    if k == 0 {
      assert fills[..0] == [];
    } else {
      IncomingAlongChain(start, zsets, fills, now, priceChecked, k - 1);
      var before := IncomingBefore(start, fills, k - 1);
      assert StepOk(before, BookAfter(zsets, fills[..k - 1]), fills[k - 1], now, priceChecked);
      assert fills[..k][..k - 1] == fills[..k - 1];
    }
  }

  /** What a fill does to the resting order it takes: quantity moves from
      unfilled to filled, the remainder is never negative, the status matches
      it, and the score (so the rank in the book) is unchanged. */
  lemma OpponentAlongChain(start: OrderRecord, zsets: map<string, ZSet>, fills: seq<Fill>,
                           now: int, priceChecked: bool, i: nat)
    requires FillChain(start, zsets, fills, now, priceChecked)
    requires WellFormed(zsets)
    requires i < |fills|
    ensures fills[i].taken.price == Some(fills[i].price) && fills[i].opponentAfter.price == fills[i].taken.price
    ensures var f := fills[i];
            && f.opponentAfter.filledQuantity + f.opponentAfter.unfilledQuantity ==
               f.taken.filledQuantity + f.taken.unfilledQuantity
            && f.opponentAfter.unfilledQuantity >= 0.0
            && f.opponentAfter.status == StatusFor(f.opponentAfter.unfilledQuantity)
            && f.opponentAfter.id == f.taken.id && f.opponentAfter.side == Opposite(start.side)
            && Score(f.opponentAfter) == Score(f.taken)
  {
    var before := IncomingBefore(start, fills, i);
    IncomingAlongChain(start, zsets, fills, now, priceChecked, i);
    assert StepOk(before, BookAfter(zsets, fills[..i]), fills[i], now, priceChecked);
    var z := BookAfter(zsets, fills[..i]);
    var key := OpponentKey(before.symbol, before.side);
    OpponentKeyIsOppositeSide(before.symbol, before.side);
    BookAfterWellFormed(start, zsets, fills, now, priceChecked, i);
    MemberFacts(z, key, fills[i].taken);
    RedisKeyInjective(before.symbol, Opposite(before.side), fills[i].taken.symbol, fills[i].taken.side);
  }

  /** Only the last opponent of a run can be left partly filled: every earlier
      one was used up and is COMPLETED. */
  lemma AtMostOnePartial(start: OrderRecord, zsets: map<string, ZSet>, fills: seq<Fill>,
                         now: int, priceChecked: bool, i: nat)
    requires FillChain(start, zsets, fills, now, priceChecked)
    requires i + 1 < |fills|
    ensures fills[i].opponentAfter.unfilledQuantity == 0.0 && fills[i].opponentAfter.status == COMPLETED
  {
    assert StepOk(IncomingBefore(start, fills, i), BookAfter(zsets, fills[..i]), fills[i], now, priceChecked);
    assert StepOk(IncomingBefore(start, fills, i + 1), BookAfter(zsets, fills[..i + 1]), fills[i + 1], now, priceChecked);
  }

  /** Under the price check a taker never trades worse than its own limit: a
      BUY pays at most its price, a SELL receives at least its price. */
  lemma TradesWithinLimit(start: OrderRecord, zsets: map<string, ZSet>, fills: seq<Fill>, now: int, i: nat)
    requires FillChain(start, zsets, fills, now, true)
    requires i < |fills|
    ensures start.price.Some?
    ensures start.side == BUY ==> fills[i].price <= start.price.value
    ensures start.side == SELL ==> fills[i].price >= start.price.value
  {
    IncomingAlongChain(start, zsets, fills, now, true, i);
    assert StepOk(IncomingBefore(start, fills, i), BookAfter(zsets, fills[..i]), fills[i], now, true);
  }

  /** Every member of every sorted set still has quantity to trade. */
  ghost predicate RestingPositive(zsets: map<string, ZSet>)
  {
    forall key, m :: key in zsets && m in zsets[key] ==> m.unfilledQuantity > 0.0
  }

  /** No market order ever rests in a sorted set. */
  ghost predicate NoMarketResting(zsets: map<string, ZSet>)
  {
    forall key, m :: key in zsets && m in zsets[key] ==> m.orderType != MARKET
  }

  lemma WithMemberKeeps(zsets: map<string, ZSet>, key: string, m: OrderRecord, score: real)
    ensures RestingPositive(zsets) && m.unfilledQuantity > 0.0 ==> RestingPositive(WithMember(zsets, key, m, score))
    ensures NoMarketResting(zsets) && m.orderType != MARKET ==> NoMarketResting(WithMember(zsets, key, m, score))
  {
  }

  lemma WithoutMemberKeeps(zsets: map<string, ZSet>, key: string, m: OrderRecord)
    ensures RestingPositive(zsets) ==> RestingPositive(WithoutMember(zsets, key, m))
    ensures NoMarketResting(zsets) ==> NoMarketResting(WithoutMember(zsets, key, m))
    ensures WellFormed(zsets) ==> WellFormed(WithoutMember(zsets, key, m))
  {
  }

  /** One iteration keeps the book well formed, and never adds an empty or
      a market order to it. */
  lemma StepKeeps(before: OrderRecord, z: map<string, ZSet>, f: Fill, now: int, priceChecked: bool)
    requires StepOk(before, z, f, now, priceChecked) && f.opponentAfter.price.Some?
    ensures WellFormed(z) ==> WellFormed(BookStep(z, f))
    ensures RestingPositive(z) ==> RestingPositive(BookStep(z, f))
    ensures NoMarketResting(z) ==> NoMarketResting(BookStep(z, f))
  {
    var key := RedisKey(f.opponentAfter.symbol, f.opponentAfter.side);
    WithoutMemberKeeps(z, key, f.taken);
    WithMemberKeeps(WithoutMember(z, key, f.taken), key, f.opponentAfter, Score(f.opponentAfter));
  }

  /** The book a chain passes through is well formed at every step. */
  lemma {:induction false} BookAfterWellFormed(start: OrderRecord, zsets: map<string, ZSet>, fills: seq<Fill>,
                                               now: int, priceChecked: bool, k: nat)
    requires FillChain(start, zsets, fills, now, priceChecked)
    requires WellFormed(zsets)
    requires k <= |fills|
    ensures WellFormed(BookAfter(zsets, fills[..k]))
  {
    if k == 0 {
      assert fills[..0] == [];
    } else {
      BookAfterWellFormed(start, zsets, fills, now, priceChecked, k - 1);
      var z := BookAfter(zsets, fills[..k - 1]);
      assert StepOk(IncomingBefore(start, fills, k - 1), z, fills[k - 1], now, priceChecked);
      assert fills[..k][..k - 1] == fills[..k - 1];
      StepKeeps(IncomingBefore(start, fills, k - 1), z, fills[k - 1], now, priceChecked);
    }
  }

  /** A chain never puts an empty or a market order in the book, so a book
      without them stays without them. */
  lemma {:induction false} BookAfterKeeps(start: OrderRecord, zsets: map<string, ZSet>, fills: seq<Fill>,
                                          now: int, priceChecked: bool, k: nat)
    requires FillChain(start, zsets, fills, now, priceChecked)
    requires k <= |fills|
    ensures RestingPositive(zsets) ==> RestingPositive(BookAfter(zsets, fills[..k]))
    ensures NoMarketResting(zsets) ==> NoMarketResting(BookAfter(zsets, fills[..k]))
  {
    if k == 0 {
      assert fills[..0] == [];
    } else {
      BookAfterKeeps(start, zsets, fills, now, priceChecked, k - 1);
      var z := BookAfter(zsets, fills[..k - 1]);
      assert StepOk(IncomingBefore(start, fills, k - 1), z, fills[k - 1], now, priceChecked);
      assert fills[..k][..k - 1] == fills[..k - 1];
      StepKeeps(IncomingBefore(start, fills, k - 1), z, fills[k - 1], now, priceChecked);
    }
  }

  /** A priced order with quantity left rests in the book after matching. */
  predicate Rests(r: OrderRecord)
  {
    IsPriced(r.orderType) && r.unfilledQuantity > 0.0
  }

  /** The sends after matching: a positive book delta for a remainder that
      rests, then the order's own update unless it is a market order. */
  function RestEvents(r: OrderRecord): seq<Event>
    requires Rests(r) ==> r.price.Some?
  {
    (if Rests(r) then [BookDelta(r.symbol, r.side, r.price.value, r.unfilledQuantity)] else []) +
    (if IsPriced(r.orderType) then [OrderUpdate(UserOrderProducer.SendOrderUpdate(r))] else [])
  }

  /** The tail of handleNewOrder: a priced order with quantity left joins the
      book under its own key and score; the sends of `RestEvents` follow. */
  method RestRemainder(book: OrderBookStore, order: Order) returns (events: seq<Event>)
    requires book.Valid()
    requires Rests(order.Snapshot()) ==> order.price.Some?
    modifies book
    ensures book.Valid()
    ensures book.zsets == if Rests(order.Snapshot())
                          then WithMember(old(book.zsets), RedisKey(order.symbol, order.side),
                                          order.Snapshot(), Score(order.Snapshot()))
                          else old(book.zsets)
    ensures events == RestEvents(order.Snapshot())
    ensures old(RestingPositive(book.zsets)) ==> RestingPositive(book.zsets)
    ensures old(NoMarketResting(book.zsets)) ==> NoMarketResting(book.zsets)
  {
    events := [];
    if order.unfilledQuantity > 0.0 && order.orderType != MARKET {
      WithMemberKeeps(book.zsets, RedisKey(order.symbol, order.side), order.Snapshot(), Score(order.Snapshot()));
      book.SaveOrderToRedis(order);
      events := events + [BookDelta(order.symbol, order.side, order.price.value, order.unfilledQuantity)];
    }
    if order.orderType != MARKET {
      events := events + [OrderUpdate(UserOrderProducer.SendOrderUpdate(order.Snapshot()))];
    }
  }

  /** handleNewOrder once the price is known to be there when needed: match,
      rest a priced remainder, send the order's own update. */
  method MatchAndRest(book: OrderBookStore, order: Order, now: int, firstTradeId: nat)
    returns (trades: seq<Trade>, events: seq<Event>, ghost fills: seq<Fill>)
    requires book.Valid()
    requires IsPriced(order.orderType) && order.unfilledQuantity > 0.0 ==> order.price.Some?
    modifies book, order
    ensures book.Valid()
    ensures FillChain(old(order.Snapshot()), old(book.zsets), fills, now, IsPriced(old(order.orderType)))
    ensures order.Snapshot() == FinalIncoming(old(order.Snapshot()), fills)
    ensures order.price == old(order.price) && order.orderType == old(order.orderType)
    ensures order.unfilledQuantity > 0.0 ==> old(order.unfilledQuantity) > 0.0
    ensures Stopped(order.Snapshot(), BookAfter(old(book.zsets), fills), IsPriced(order.orderType))
    ensures TradesFor(trades, order, order.side, fills, firstTradeId, now)
    ensures book.zsets ==
              if Rests(order.Snapshot())
              then WithMember(BookAfter(old(book.zsets), fills), RedisKey(order.symbol, order.side),
                              order.Snapshot(), Score(order.Snapshot()))
              else BookAfter(old(book.zsets), fills)
    ensures events ==
              LoopEvents(fills, firstTradeId, now) +
              MatchedEvents(order.Snapshot(), fills, firstTradeId, now) +
              RestEvents(order.Snapshot())
    ensures old(RestingPositive(book.zsets)) ==> RestingPositive(book.zsets)
    ensures old(NoMarketResting(book.zsets)) ==> NoMarketResting(book.zsets)
  {
    ghost var start := order.Snapshot();
    ghost var book0 := book.zsets;
    var loopEvents;
    trades, loopEvents, fills := MatchLoop(book, order, IsPriced(order.orderType), now, firstTradeId);
    BookAfterKeeps(start, book0, fills, now, IsPriced(start.orderType), |fills|);
    assert fills[..|fills|] == fills;
    var restEvents := RestRemainder(book, order);
    events := loopEvents + restEvents;
  }

  /** handleNewOrder: match a market order without a price check and any
      other order with one; rest a priced remainder (announcing it as a
      positive book delta); then send the order's own update unless it is a
      market order. A priced order without a price but with quantity left
      fails (`ok == false`) on dereferencing the price, before any change. */
  method HandleNewOrder(book: OrderBookStore, order: Order, now: int, firstTradeId: nat)
    returns (ok: bool, trades: seq<Trade>, events: seq<Event>, ghost fills: seq<Fill>)
    requires book.Valid()
    modifies book, order
    ensures book.Valid()
    ensures !ok <==> IsPriced(old(order.orderType)) && old(order.price).None? && old(order.unfilledQuantity) > 0.0
    ensures !ok ==> book.zsets == old(book.zsets) && order.Snapshot() == old(order.Snapshot()) &&
                    trades == [] && events == []
    ensures ok ==> FillChain(old(order.Snapshot()), old(book.zsets), fills, now, IsPriced(old(order.orderType)))
    ensures ok ==> order.Snapshot() == FinalIncoming(old(order.Snapshot()), fills)
    ensures ok ==> order.price == old(order.price) && order.orderType == old(order.orderType)
    ensures ok ==> (order.unfilledQuantity > 0.0 ==> old(order.unfilledQuantity) > 0.0)
    ensures ok ==> Stopped(order.Snapshot(), BookAfter(old(book.zsets), fills), IsPriced(order.orderType))
    ensures ok ==> TradesFor(trades, order, order.side, fills, firstTradeId, now)
    ensures ok ==> (book.zsets ==
              if Rests(order.Snapshot())
              then WithMember(BookAfter(old(book.zsets), fills), RedisKey(order.symbol, order.side),
                              order.Snapshot(), Score(order.Snapshot()))
              else BookAfter(old(book.zsets), fills))
    ensures ok ==> (events ==
              LoopEvents(fills, firstTradeId, now) +
              MatchedEvents(order.Snapshot(), fills, firstTradeId, now) +
              RestEvents(order.Snapshot()))
    ensures old(RestingPositive(book.zsets)) ==> RestingPositive(book.zsets)
    ensures old(NoMarketResting(book.zsets)) ==> NoMarketResting(book.zsets)
  {
    if IsPriced(order.orderType) && order.price.None? && order.unfilledQuantity > 0.0 {
      return false, [], [], [];
    }
    ok := true;
    trades, events, fills := MatchAndRest(book, order, now, firstTradeId);
  }
}
