/** The consumer that persists matched orders in batches.

    Its state is a batch of trade messages and a `hasPendingOrders` flag.
    A message appends to the batch and sets the flag. Ten messages in the
    batch flush it at once; a periodic tick flushes whatever is pending.
    A flush coalesces the order snapshots per id and hands the orders and the
    trades to the repository in one call. */
module MatchedOrderConsumer {
  import opened Util
  import opened Model
  import TradeRepository

  const BATCH_SIZE: nat := 10
  const TRADE_ORDER: string := "TRADE_ORDER"

  /** A `MatchedMessage` envelope as read from the topic: its type tag and
      its payload, which is None when the payload does not parse. */
  datatype Envelope = Envelope(msgType: string, data: Option<TradeOrdersMessage>)

  /** `mergeOrders`: the existing snapshot takes the newer one's fill state
      and update time and keeps every other field. */
  function MergeOrders(existing: OrderRecord, newer: OrderRecord): (m: OrderRecord)
    ensures m.filledQuantity == newer.filledQuantity && m.unfilledQuantity == newer.unfilledQuantity
    ensures m.status == newer.status && m.updatedAt == newer.updatedAt
    ensures m.(filledQuantity := existing.filledQuantity, unfilledQuantity := existing.unfilledQuantity,
               status := existing.status, updatedAt := existing.updatedAt) == existing
  {
    existing.(filledQuantity := newer.filledQuantity, unfilledQuantity := newer.unfilledQuantity,
              status := newer.status, updatedAt := newer.updatedAt)
  }

  /** Merging in a later snapshot overrides an earlier merge, and merging a
      snapshot with itself changes nothing. */
  lemma MergeOrdersAbsorbs(a: OrderRecord, b: OrderRecord, c: OrderRecord)
    ensures MergeOrders(MergeOrders(a, b), c) == MergeOrders(a, c)
    ensures MergeOrders(a, a) == a
  {
  }

  function Ids(recs: seq<OrderRecord>): set<string>
  {
    set r | r in recs :: r.id
  }

  lemma IdsSnoc(recs: seq<OrderRecord>, r: OrderRecord)
    ensures Ids(recs + [r]) == Ids(recs) + {r.id}
  {
    assert forall x :: x in recs + [r] <==> x in recs || x == r;
  }

  /** The ids in the order a HashMap first sees them; every id once. */
  function FirstSeenIds(recs: seq<OrderRecord>): (ids: seq<string>)
    ensures forall i, j :: 0 <= i < j < |ids| ==> ids[i] != ids[j]
    ensures forall id :: id in ids <==> id in Ids(recs)
  {
    if recs == [] then []
    else
      var p, last := recs[..|recs| - 1], recs[|recs| - 1];
      assert recs == p + [last];
      IdsSnoc(p, last);
      var ids := FirstSeenIds(p);
      if last.id in ids then ids else ids + [last.id]
  }

  /** The per-id merge map after `Map.merge` of each record in turn. */
  function MergedMap(recs: seq<OrderRecord>): (m: map<string, OrderRecord>)
    ensures m.Keys == Ids(recs)
    ensures forall id :: id in m ==> m[id].id == id
  {
    if recs == [] then map[]
    else
      var p, last := recs[..|recs| - 1], recs[|recs| - 1];
      assert recs == p + [last];
      IdsSnoc(p, last);
      var m := MergedMap(p);
      if last.id in m then m[last.id := MergeOrders(m[last.id], last)] else m[last.id := last]
  }

  /** The position of the first and of the last record with a given id. */
  function FirstIndex(recs: seq<OrderRecord>, id: string): (k: nat)
    requires id in Ids(recs)
    ensures k < |recs| && recs[k].id == id
    ensures forall j :: 0 <= j < k ==> recs[j].id != id
  {
    var p, last := recs[..|recs| - 1], recs[|recs| - 1];
    assert recs == p + [last];
    IdsSnoc(p, last);
    if id in Ids(p) then FirstIndex(p, id) else
      assert forall j :: 0 <= j < |p| ==> p[j] in p;
      |recs| - 1
  }

  function LastIndex(recs: seq<OrderRecord>, id: string): (k: nat)
    requires id in Ids(recs)
    ensures k < |recs| && recs[k].id == id
    ensures forall j :: k < j < |recs| ==> recs[j].id != id
  {
    var p, last := recs[..|recs| - 1], recs[|recs| - 1];
    assert recs == p + [last];
    IdsSnoc(p, last);
    if last.id == id then |recs| - 1 else LastIndex(p, id)
  }

  /** Each merged entry is the first-seen snapshot with the fill state of the
      latest one. */
  lemma {:induction false} MergedEntry(recs: seq<OrderRecord>, id: string)
    requires id in Ids(recs)
    ensures MergedMap(recs)[id] == MergeOrders(recs[FirstIndex(recs, id)], recs[LastIndex(recs, id)])
  {
    var p, last := recs[..|recs| - 1], recs[|recs| - 1];
    assert recs == p + [last];
    IdsSnoc(p, last);
    if id in Ids(p) {
      MergedEntry(p, id);
      assert recs[FirstIndex(p, id)] == p[FirstIndex(p, id)];
      if last.id == id {
        MergeOrdersAbsorbs(p[FirstIndex(p, id)], p[LastIndex(p, id)], last);
      } else {
        assert recs[LastIndex(p, id)] == p[LastIndex(p, id)];
      }
    } else {
      MergeOrdersAbsorbs(last, last, last);
    }
  }

  /** The orders a flush writes for one side: one entry per distinct id, in
      first-seen order. */
  function Coalesce(recs: seq<OrderRecord>): (c: seq<OrderRecord>)
    ensures |c| == |FirstSeenIds(recs)|
    ensures forall i :: 0 <= i < |c| ==> c[i].id == FirstSeenIds(recs)[i]
  {
    var ids, m := FirstSeenIds(recs), MergedMap(recs);
    seq(|ids|, i requires 0 <= i < |ids| => m[ids[i]])
  }

  /** Exactly one entry per distinct id, each merged from the first and the
      latest snapshot with that id. */
  lemma CoalesceSpec(recs: seq<OrderRecord>)
    ensures forall i, j :: 0 <= i < j < |Coalesce(recs)| ==> Coalesce(recs)[i].id != Coalesce(recs)[j].id
    ensures forall id :: id in Ids(recs) <==> exists i :: 0 <= i < |Coalesce(recs)| && Coalesce(recs)[i].id == id
    ensures forall i :: 0 <= i < |Coalesce(recs)| ==>
              Coalesce(recs)[i] == MergeOrders(recs[FirstIndex(recs, Coalesce(recs)[i].id)],
                                               recs[LastIndex(recs, Coalesce(recs)[i].id)])
  {
    var c, ids := Coalesce(recs), FirstSeenIds(recs);
    forall id | id in Ids(recs)
      ensures exists i :: 0 <= i < |c| && c[i].id == id
    {
      var i :| 0 <= i < |ids| && ids[i] == id;
      assert c[i].id == id;
    }
    forall i | 0 <= i < |c|
      ensures c[i] == MergeOrders(recs[FirstIndex(recs, c[i].id)], recs[LastIndex(recs, c[i].id)])
    {
      assert ids[i] in ids;
      MergedEntry(recs, ids[i]);
    }
  }

  /** The threshold counts messages, not orders: a full batch about a single
      order writes a single row for it. */
  lemma {:induction false} OneOrderOneEntry(recs: seq<OrderRecord>, id: string)
    requires recs != []
    requires forall i :: 0 <= i < |recs| ==> recs[i].id == id
    ensures FirstSeenIds(recs) == [id]
    ensures |Coalesce(recs)| == 1
  {
    var p := recs[..|recs| - 1];
    if p != [] {
      OneOrderOneEntry(p, id);
    }
  }

  function Buys(ms: seq<TradeOrdersMessage>): (r: seq<OrderRecord>)
  {
    seq(|ms|, i requires 0 <= i < |ms| => ms[i].buyOrder)
  }

  function Sells(ms: seq<TradeOrdersMessage>): (r: seq<OrderRecord>)
  {
    seq(|ms|, i requires 0 <= i < |ms| => ms[i].sellOrder)
  }

  /** Every message's trade, in arrival order, duplicates included. */
  function TradesOf(ms: seq<TradeOrdersMessage>): (r: seq<TradeRecord>)
  {
    seq(|ms|, i requires 0 <= i < |ms| => ms[i].trade)
  }

  lemma PrefixSnoc(ms: seq<TradeOrdersMessage>, i: nat)
    requires i < |ms|
    ensures Buys(ms[..i + 1]) == Buys(ms[..i]) + [ms[i].buyOrder]
    ensures Sells(ms[..i + 1]) == Sells(ms[..i]) + [ms[i].sellOrder]
    ensures TradesOf(ms[..i + 1]) == TradesOf(ms[..i]) + [ms[i].trade]
  {
  }

  /** One `Map.merge` step: the map and its first-seen key order after one
      more record. */
  method MergeInto(m: map<string, OrderRecord>, ids: seq<string>, r: OrderRecord, ghost recs: seq<OrderRecord>)
    returns (m': map<string, OrderRecord>, ids': seq<string>)
    requires m == MergedMap(recs) && ids == FirstSeenIds(recs)
    ensures m' == MergedMap(recs + [r]) && ids' == FirstSeenIds(recs + [r])
  {
    ghost var grown := recs + [r];
    assert grown[..|grown| - 1] == recs && grown[|grown| - 1] == r;
    if r.id in m {
      m', ids' := m[r.id := MergeOrders(m[r.id], r)], ids;
    } else {
      m', ids' := m[r.id := r], ids + [r.id];
    }
  }

  /** The loop of `processOrderBatch`: coalesce buy and sell orders per id
      and collect the trades. */
  method CoalesceBatch(messages: seq<TradeOrdersMessage>)
    returns (buyOrders: seq<OrderRecord>, sellOrders: seq<OrderRecord>, trades: seq<TradeRecord>)
    ensures buyOrders == Coalesce(Buys(messages)) && sellOrders == Coalesce(Sells(messages))
    ensures |trades| == |messages| && forall i :: 0 <= i < |messages| ==> trades[i] == messages[i].trade
  {
    var buyMap: map<string, OrderRecord>, buyIds: seq<string> := map[], [];
    var sellMap: map<string, OrderRecord>, sellIds: seq<string> := map[], [];
    trades := [];
    for i := 0 to |messages|
      invariant buyMap == MergedMap(Buys(messages[..i])) && buyIds == FirstSeenIds(Buys(messages[..i]))
      invariant sellMap == MergedMap(Sells(messages[..i])) && sellIds == FirstSeenIds(Sells(messages[..i]))
      invariant trades == TradesOf(messages[..i])
    {
      var msg := messages[i];
      PrefixSnoc(messages, i);
      buyMap, buyIds := MergeInto(buyMap, buyIds, msg.buyOrder, Buys(messages[..i]));
      sellMap, sellIds := MergeInto(sellMap, sellIds, msg.sellOrder, Sells(messages[..i]));
      trades := trades + [msg.trade];
    }
    assert messages[..|messages|] == messages;
    buyOrders := seq(|buyIds|, k requires 0 <= k < |buyIds| => buyMap[buyIds[k]]);
    sellOrders := seq(|sellIds|, k requires 0 <= k < |sellIds| => sellMap[sellIds[k]]);
  }

  /** What a flush of `batch` does to the database. */
  function Flush(t: TradeRepository.Tables, batch: seq<TradeOrdersMessage>): (bool, TradeRepository.Tables)
  {
    TradeRepository.SaveAll(t, Coalesce(Buys(batch)), Coalesce(Sells(batch)), TradesOf(batch))
  }

  /** `processOrderBatch`. */
  method ProcessOrderBatch(store: TradeRepository.Store, messages: seq<TradeOrdersMessage>) returns (ok: bool)
    modifies store
    ensures (ok, store.Contents()) == Flush(old(store.Contents()), messages)
  {
    var buyOrders, sellOrders, trades := CoalesceBatch(messages);
    assert trades == TradesOf(messages);
    ok := store.SaveAllOrdersAndTrades(buyOrders, sellOrders, trades);
  }

  /** Whether an envelope is batched, and the message it carries. Other
      types and payloads that fail to parse are dropped. */
  function Accepted(envelope: Option<Envelope>): Option<TradeOrdersMessage>
  {
    if envelope.Some? && envelope.value.msgType == TRADE_ORDER then envelope.value.data else None
  }

  class Consumer {
    var batch: seq<TradeOrdersMessage>
    var hasPendingOrders: bool
    const store: TradeRepository.Store

    /** The flag says whether the batch holds anything, and between calls the
        batch is below the threshold. */
    ghost predicate Valid()
      reads this
    {
      (hasPendingOrders <==> batch != []) && |batch| < BATCH_SIZE
    }

    constructor (store: TradeRepository.Store)
      ensures Valid() && batch == [] && this.store == store
    {
      batch, hasPendingOrders := [], false;
      this.store := store;
    }

    /** `consumeTradeOrdersMessage`; `envelope` is None when the envelope
        itself does not parse. */
    method ConsumeTradeOrdersMessage(envelope: Option<Envelope>)
      requires Valid()
      modifies this, store
      ensures Valid()
      ensures Accepted(envelope).None? ==>
                batch == old(batch) && hasPendingOrders == old(hasPendingOrders)
                && store.Contents() == old(store.Contents())
      ensures Accepted(envelope).Some? ==>
                var grown := old(batch) + [Accepted(envelope).value];
                if |grown| >= BATCH_SIZE then
                  batch == [] && store.Contents() == Flush(old(store.Contents()), grown).1
                else
                  batch == grown && store.Contents() == old(store.Contents())
    {
      var message := Accepted(envelope);
      if message.None? {
        return;
      }
      batch := batch + [message.value];
      hasPendingOrders := true;
      if |batch| >= BATCH_SIZE {
        var toProcess := batch;
        batch := [];
        hasPendingOrders := false;
        var _ := ProcessOrderBatch(store, toProcess);
      }
    }

    /** `checkAndPersistBatch`, the periodic tick. */
    method CheckAndPersistBatch()
      requires Valid()
      modifies this, store
      ensures Valid() && batch == []
      ensures old(hasPendingOrders) ==> store.Contents() == Flush(old(store.Contents()), old(batch)).1
      ensures !old(hasPendingOrders) ==> store.Contents() == old(store.Contents())
    {
      if !hasPendingOrders {
        return;
      }
      var toProcess := batch;
      batch := [];
      hasPendingOrders := false;
      var _ := ProcessOrderBatch(store, toProcess);
    }
  }

  /** A tick with nothing pending writes nothing: flushing an empty batch
      would be a no-op call anyway. */
  lemma EmptyFlushChangesNothing(t: TradeRepository.Tables)
    ensures Flush(t, []) == (true, t)
  {
    assert Coalesce(Buys([])) == [] && Coalesce(Sells([])) == [] && TradesOf([]) == [];
    assert TradeRepository.TradeRows([]) == [];
    assert t.trades + [] == t.trades;
  }
}
