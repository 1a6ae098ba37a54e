/** The persistence of matched orders and trades: one transactional call that
    upserts order rows and then inserts trade rows.

    The `orders` table is a map from order id to row. An upsert of a new id
    inserts all 15 columns. An upsert of an existing id overwrites every
    column except `user_id`, `symbol` and `created_at`, which are not in the
    ON DUPLICATE KEY UPDATE list. The `trades` table is append-only, and a
    trade id already present (or repeated in the call) violates its primary
    key, which rolls the whole transaction back. */
module TradeRepository {
  import opened Model

  /** One `trades` row: the orders appear only by id. */
  datatype TradeRow = TradeRow(
    id: nat,
    symbol: string,
    price: real,
    quantity: real,
    buyOrderId: string,
    sellOrderId: string,
    tradeTime: int,
    direction: string,
    takerOrderId: string)

  function TradeRowOf(t: TradeRecord): (row: TradeRow)
    ensures row.id == t.id && row.buyOrderId == t.buyOrder.id && row.sellOrderId == t.sellOrder.id
    ensures row.symbol == t.symbol && row.price == t.price && row.quantity == t.quantity
    ensures row.tradeTime == t.tradeTime && row.direction == t.direction && row.takerOrderId == t.takerOrderId
  {
    TradeRow(t.id, t.symbol, t.price, t.quantity, t.buyOrder.id, t.sellOrder.id,
             t.tradeTime, t.direction, t.takerOrderId)
  }

  function TradeRows(ts: seq<TradeRecord>): (rows: seq<TradeRow>)
    ensures |rows| == |ts|
    ensures forall i :: 0 <= i < |ts| ==> rows[i] == TradeRowOf(ts[i])
  {
    if ts == [] then [] else TradeRows(ts[..|ts| - 1]) + [TradeRowOf(ts[|ts| - 1])]
  }

  type OrderTable = map<string, OrderRecord>

  /** The row an upsert leaves under `r.id`. */
  function UpsertedRow(table: OrderTable, r: OrderRecord): OrderRecord
  {
    if r.id in table then
      var old_ := table[r.id];
      r.(userId := old_.userId, symbol := old_.symbol, createdAt := old_.createdAt)
    else r
  }

  /** One order upsert. */
  function Upsert(table: OrderTable, r: OrderRecord): (t: OrderTable)
    ensures t.Keys == table.Keys + {r.id}
    ensures forall id :: id in table && id != r.id ==> t[id] == table[id]
    ensures r.id !in table ==> t[r.id] == r
    ensures r.id in table ==>
              t[r.id].userId == table[r.id].userId && t[r.id].symbol == table[r.id].symbol
              && t[r.id].createdAt == table[r.id].createdAt
    ensures t[r.id].(userId := r.userId, symbol := r.symbol, createdAt := r.createdAt) == r
  {
    table[r.id := UpsertedRow(table, r)]
  }

  /** The upserts of a call, in list order. */
  function UpsertAll(table: OrderTable, rs: seq<OrderRecord>): OrderTable
  {
    if rs == [] then table else Upsert(UpsertAll(table, rs[..|rs| - 1]), rs[|rs| - 1])
  }

  /** Upserting the same snapshot twice leaves what upserting it once left. */
  lemma UpsertIdempotent(table: OrderTable, r: OrderRecord)
    ensures Upsert(Upsert(table, r), r) == Upsert(table, r)
  {
  }

  /** Upserts of different ids commute, so the order in which a batch lists
      distinct orders does not matter. */
  lemma UpsertCommutes(table: OrderTable, a: OrderRecord, b: OrderRecord)
    requires a.id != b.id
    ensures Upsert(Upsert(table, a), b) == Upsert(Upsert(table, b), a)
  {
  }

  /** The ids a call writes, and nothing else, are added to the table. */
  lemma {:induction false} UpsertAllKeys(table: OrderTable, rs: seq<OrderRecord>)
    ensures UpsertAll(table, rs).Keys == table.Keys + (set r | r in rs :: r.id)
    ensures forall id :: id in table && (forall r :: r in rs ==> r.id != id) ==> UpsertAll(table, rs)[id] == table[id]
  {
    if rs != [] {
      var p := rs[..|rs| - 1];
      UpsertAllKeys(table, p);
      assert rs == p + [rs[|rs| - 1]];
      assert (set r | r in rs :: r.id) == (set r | r in p :: r.id) + {rs[|rs| - 1].id};
    }
  }

  /** With distinct ids in the list, each written row is that record's upsert
      against the original table, whatever the list order. */
  lemma {:induction false} UpsertAllDistinct(table: OrderTable, rs: seq<OrderRecord>, k: nat)
    requires forall i, j :: 0 <= i < j < |rs| ==> rs[i].id != rs[j].id
    requires k < |rs|
    ensures rs[k].id in UpsertAll(table, rs)
    ensures UpsertAll(table, rs)[rs[k].id] == UpsertedRow(table, rs[k])
  {
    var p := rs[..|rs| - 1];
    if k == |rs| - 1 {
      UpsertAllKeys(table, p);
      assert forall r :: r in p ==> r.id != rs[k].id;
    } else {
      UpsertAllDistinct(table, p, k);
    }
  }

  /** The ids of the rows already in the trade table. */
  function TradeIds(rows: seq<TradeRow>): set<nat>
  {
    set r | r in rows :: r.id
  }

  /** The trades of a call can all be inserted: their ids are new and
      pairwise different. */
  predicate Insertable(rows: seq<TradeRow>, ts: seq<TradeRecord>)
  {
    (forall i :: 0 <= i < |ts| ==> ts[i].id !in TradeIds(rows))
    && (forall i, j :: 0 <= i < j < |ts| ==> ts[i].id != ts[j].id)
  }

  /** A trade whose id is already in the table, or among the trades
      inserted before it, makes the call fail. */
  lemma DuplicateBlocks(rows: seq<TradeRow>, ts: seq<TradeRecord>, i: nat)
    requires i < |ts|
    requires ts[i].id in TradeIds(rows + TradeRows(ts[..i]))
    ensures !Insertable(rows, ts)
  {
    var r :| r in rows + TradeRows(ts[..i]) && r.id == ts[i].id;
    if r !in rows {
      var k :| 0 <= k < i && TradeRows(ts[..i])[k] == r;
      assert ts[k].id == ts[i].id;
    }
  }

  lemma InsertableExtend(rows: seq<TradeRow>, ts: seq<TradeRecord>, i: nat)
    requires i < |ts|
    requires Insertable(rows, ts[..i])
    requires ts[i].id !in TradeIds(rows + TradeRows(ts[..i]))
    ensures Insertable(rows, ts[..i + 1])
    ensures TradeIds(rows + TradeRows(ts[..i]) + [TradeRowOf(ts[i])])
            == TradeIds(rows + TradeRows(ts[..i])) + {ts[i].id}
    ensures rows + TradeRows(ts[..i]) + [TradeRowOf(ts[i])] == rows + TradeRows(ts[..i + 1])
  {
    assert ts[..i + 1][..i] == ts[..i];
    forall k | 0 <= k < i
      ensures ts[k].id != ts[i].id
    {
      assert TradeRows(ts[..i])[k] in rows + TradeRows(ts[..i]);
    }
    assert forall r :: r in rows ==> r in rows + TradeRows(ts[..i]);
  }

  /** The contents of both tables. */
  datatype Tables = Tables(orders: OrderTable, trades: seq<TradeRow>)

  /** `saveAllOrdersAndTrades` as one transaction: buy orders then sell
      orders are upserted, then the trades are inserted; a primary-key
      violation on a trade rolls everything back. */
  function SaveAll(t: Tables, buyOrders: seq<OrderRecord>, sellOrders: seq<OrderRecord>,
                   trades: seq<TradeRecord>): (r: (bool, Tables))
    ensures !r.0 ==> r.1 == t
    ensures r.0 ==> |r.1.trades| == |t.trades| + |trades| && r.1.trades[..|t.trades|] == t.trades
  {
    if Insertable(t.trades, trades) then
      (true, Tables(UpsertAll(t.orders, buyOrders + sellOrders), t.trades + TradeRows(trades)))
    else (false, t)
  }

  /** A committed call leaves every trade id in the table exactly once. */
  lemma {:induction false} SaveAllKeepsTradeIdsUnique(t: Tables, buyOrders: seq<OrderRecord>,
                                                      sellOrders: seq<OrderRecord>, trades: seq<TradeRecord>)
    requires UniqueIds(t.trades)
    ensures UniqueIds(SaveAll(t, buyOrders, sellOrders, trades).1.trades)
  {
    if Insertable(t.trades, trades) {
      var rows := TradeRows(trades);
      forall i, j | 0 <= i < j < |rows|
        ensures rows[i].id != rows[j].id
      {
        assert rows[i].id == trades[i].id && rows[j].id == trades[j].id;
      }
      forall j | 0 <= j < |rows|
        ensures rows[j].id !in TradeIds(t.trades)
      {
        assert rows[j].id == trades[j].id;
      }
      UniqueIdsAppend(t.trades, rows);
    }
  }

  predicate UniqueIds(rows: seq<TradeRow>)
  {
    forall i, j :: 0 <= i < j < |rows| ==> rows[i].id != rows[j].id
  }

  lemma UniqueIdsAppend(a: seq<TradeRow>, b: seq<TradeRow>)
    requires UniqueIds(a) && UniqueIds(b)
    requires forall j :: 0 <= j < |b| ==> b[j].id !in TradeIds(a)
    ensures UniqueIds(a + b)
  {
    var rows := a + b;
    forall i, j | 0 <= i < j < |rows|
      ensures rows[i].id != rows[j].id
    {
      if j >= |a| {
        assert rows[j] == b[j - |a|];
        if i < |a| {
          assert rows[i] == a[i];
          assert rows[i].id in TradeIds(a);
        } else {
          assert rows[i] == b[i - |a|];
        }
      } else {
        assert rows[i] == a[i] && rows[j] == a[j];
      }
    }
  }

  /** The database behind the repository. */
  class Store {
    var orders: OrderTable
    var trades: seq<TradeRow>

    constructor ()
      ensures orders == map[] && trades == []
    {
      orders, trades := map[], [];
    }

    function Contents(): Tables
      reads this
    {
      Tables(orders, trades)
    }

    /** Upsert every order of `allOrders` in turn. */
    method UpsertOrders(allOrders: seq<OrderRecord>)
      modifies this
      ensures orders == UpsertAll(old(orders), allOrders)
      ensures trades == old(trades)
    {
      ghost var start := orders;
      for i := 0 to |allOrders|
        invariant orders == UpsertAll(start, allOrders[..i])
        invariant trades == old(trades)
      {
        assert allOrders[..i + 1][..i] == allOrders[..i];
        orders := Upsert(orders, allOrders[i]);
      }
      assert allOrders[..|allOrders|] == allOrders;
    }

    /** Insert the trade rows in turn; on a duplicate id the inserts made so
        far are undone and `ok` is false. */
    method InsertTrades(newTrades: seq<TradeRecord>) returns (ok: bool)
      modifies this
      ensures ok <==> Insertable(old(trades), newTrades)
      ensures ok ==> trades == old(trades) + TradeRows(newTrades)
      ensures !ok ==> trades == old(trades)
      ensures orders == old(orders)
    {
      var trades0 := trades;
      var ids := TradeIds(trades);
      for i := 0 to |newTrades|
        invariant trades == trades0 + TradeRows(newTrades[..i])
        invariant orders == old(orders)
        invariant ids == TradeIds(trades)
        invariant Insertable(trades0, newTrades[..i])
      {
        var row := TradeRowOf(newTrades[i]);
        if row.id in ids {
          DuplicateBlocks(trades0, newTrades, i);
          trades := trades0;
          return false;
        }
        InsertableExtend(trades0, newTrades, i);
        trades := trades + [row];
        ids := ids + {row.id};
      }
      assert newTrades[..|newTrades|] == newTrades;
      ok := true;
    }

    /** The transactional `saveAllOrdersAndTrades`. `ok` is false when a
        trade insert hit a duplicate id and the transaction was rolled back. */
    method SaveAllOrdersAndTrades(buyOrders: seq<OrderRecord>, sellOrders: seq<OrderRecord>,
                                  newTrades: seq<TradeRecord>) returns (ok: bool)
      modifies this
      ensures (ok, Contents()) == SaveAll(old(Contents()), buyOrders, sellOrders, newTrades)
    {
      var orders0 := orders;
      UpsertOrders(buyOrders + sellOrders);
      ok := InsertTrades(newTrades);
      if !ok {
        orders := orders0;
      }
    }
  }
}
