/** Processing and rolling back order-filled logs: trades, volumes, the order's remaining amounts and both parties'
    profit-and-loss rows. */
module OrderFilled {
  import opened FinancialMath
  import opened Results
  import opened ProfitLoss

  type OrderId = string

  datatype OrderState = OPEN | FILLED | CANCELED

  datatype MarketRow = MarketRow(bounds: Market, volume: real, shareVolume: real)

  datatype OutcomeId = OutcomeId(marketId: Address, outcome: nat)

  datatype OutcomeRow = OutcomeRow(volume: real, shareVolume: real)

  datatype OrderRow = OrderRow(orderCreator: Address, orderType: OrderType, price: real,
    fullPrecisionAmount: real, sharesEscrowed: real, tokensEscrowed: real, orderState: OrderState)

  /** The columns by which a trade is looked up and deleted. */
  datatype TradeKey = TradeKey(id: OutcomeId, orderId: OrderId, blockNumber: nat)

  datatype TradeRow = TradeRow(key: TradeKey, amount: real, data: TradeData)

  /** An order-filled log, with its on-chain amounts converted to display amounts. */
  datatype Log = Log(shareToken: Address, orderId: OrderId, filler: Address, blockNumber: nat, transactionHash: string,
    amount: real, numCreatorTokens: real, numCreatorShares: real, numFillerTokens: real, numFillerShares: real)

  datatype Tables = Tables(
    tokens: map<Address, OutcomeId>,
    markets: map<Address, MarketRow>,
    outcomes: map<OutcomeId, OutcomeRow>,
    orders: map<OrderId, OrderRow>,
    trades: seq<TradeRow>,
    rows: seq<Row>)

  /** Tokens changing hands in a trade: what both sides pay, and what destroyed complete sets release. */
  function VolumeForTrade(bounds: Market, data: TradeData): real {
    data.numCreatorTokens + data.numFillerTokens
        + Min(data.numCreatorShares, data.numFillerShares) * bounds.DisplayRange()
  }

  /** The first trade stored under a key. */
  function FirstTrade(trades: seq<TradeRow>, key: TradeKey): Option<TradeRow> {
    if trades == [] then None
    else if trades[0].key == key then Some(trades[0])
    else FirstTrade(trades[1..], key)
  }

  function WithoutTrades(trades: seq<TradeRow>, key: TradeKey): seq<TradeRow> {
    if trades == [] then []
    else if trades[0].key == key then WithoutTrades(trades[1..], key)
    else [trades[0]] + WithoutTrades(trades[1..], key)
  }

  // ---------------------------------------------------------------- one log, as a change of the tables

  /** Adds (or takes away) a stored trade to the volumes of its market and outcome. */
  function VolumetricsUpdated(t: Tables, key: TradeKey, isIncrease: bool): Result<Tables> {
    match FirstTrade(t.trades, key)
    case None => Err("trade not found")
    case Some(trade) =>
      if key.id.marketId !in t.markets then Err("no market")
      else if key.id !in t.outcomes then Err("no outcome")
      else
        var m, o := t.markets[key.id.marketId], t.outcomes[key.id];
        var amount := if isIncrease then trade.amount else -trade.amount;
        var vft := VolumeForTrade(m.bounds, trade.data);
        var volume := if isIncrease then vft else -vft;
        Ok(t.(markets :=
            t.markets[key.id.marketId := m.(volume := m.volume + volume, shareVolume := m.shareVolume + amount)],
              outcomes := t.outcomes[key.id := OutcomeRow(o.volume + volume, o.shareVolume + amount)]))
  }

  function StateFor(amountRemaining: real): OrderState {
    if amountRemaining == 0.0 then FILLED else OPEN
  }

  /** Takes filled amounts off an order. */
  function OrderUpdated(order: OrderRow, amount: real, numCreatorShares: real, numCreatorTokens: real): OrderRow {
    order.(fullPrecisionAmount := order.fullPrecisionAmount - amount,
           sharesEscrowed := order.sharesEscrowed - numCreatorShares,
           tokensEscrowed := order.tokensEscrowed - numCreatorTokens,
           orderState := StateFor(order.fullPrecisionAmount - amount))
  }

  /** The trade a log stores. */
  function TradeOf(id: OutcomeId, order: OrderRow, log: Log): TradeRow {
    TradeRow(TradeKey(id, log.orderId, log.blockNumber), log.amount,
      TradeData(order.orderType, order.orderCreator, log.filler, order.price,
                log.numCreatorTokens, log.numCreatorShares, log.numFillerTokens, log.numFillerShares))
  }

  /** Both parties' rows: the creator moves with the order's type, the filler against it. */
  function ProfitLossUpdated(rows: seq<Row>, bounds: Market, trade: TradeRow,
      transactionHash: string): Result<seq<Row>> {
    var data, id := trade.data, trade.key.id;
    var creatorDelta := if data.orderType == Buy then trade.amount else -trade.amount;
    var fillerDelta := if data.orderType == Sell then trade.amount else -trade.amount;
    match RowsAfter(rows, bounds, Key(data.creator, id.marketId, id.outcome), creatorDelta, data.price,
        transactionHash, Some(data))
    case Err(e) => Err(e)
    case Ok(mid) =>
      RowsAfter(mid, bounds, Key(data.filler, id.marketId, id.outcome), fillerDelta, data.price, transactionHash,
          Some(data))
  }

  /** Why a log cannot be processed at all. */
  function Refusal(t: Tables, log: Log): Option<string> {
    if log.shareToken !in t.tokens then Some("market and outcome not found for shareToken")
    else if t.tokens[log.shareToken].marketId !in t.markets then Some("market not found")
    else if log.orderId !in t.orders then Some("order not found")
    else None
  }

  /** The tables after an order-filled log, or the error that rolls its transaction back. */
  function Filled(t: Tables, log: Log): Result<Tables> {
    if Refusal(t, log).Some? then Err(Refusal(t, log).value)
    else
      var id, order := t.tokens[log.shareToken], t.orders[log.orderId];
      var trade := TradeOf(id, order, log);
      match VolumetricsUpdated(t.(trades := t.trades + [trade]), trade.key, true)
      case Err(e) => Err(e)
      case Ok(counted) =>
        var ordered := counted.(orders := t.orders[log.orderId :=
          OrderUpdated(order, log.amount, log.numCreatorShares, log.numCreatorTokens)]);
        match ProfitLossUpdated(t.rows, t.markets[id.marketId].bounds, trade, log.transactionHash)
        case Err(e) => Err(e)
        case Ok(rows) => Ok(ordered.(rows := rows))
  }

  /** The tables after the removal of an order-filled log. */
  function FillRemoved(t: Tables, log: Log): Result<Tables> {
    if Refusal(t, log).Some? then Err(Refusal(t, log).value)
    else
      var id, order := t.tokens[log.shareToken], t.orders[log.orderId];
      var key := TradeKey(id, log.orderId, log.blockNumber);
      match VolumetricsUpdated(t, key, false)
      case Err(e) => Err(e)
      case Ok(counted) =>
        Ok(counted.(
          trades := WithoutTrades(t.trades, key),
          orders := t.orders[log.orderId :=
              OrderUpdated(order, -log.amount, -log.numCreatorShares, -log.numCreatorTokens)],
          rows := WithoutTransaction(t.rows, log.transactionHash)))
  }

  // ---------------------------------------------------------------- the log processors

  class Database {
    const tokens: map<Address, OutcomeId>
    var markets: map<Address, MarketRow>
    var outcomes: map<OutcomeId, OutcomeRow>
    var orders: map<OrderId, OrderRow>
    var trades: seq<TradeRow>
    const profitLoss: ProfitLossTimeseries

    function Snapshot(): Tables
      reads this, profitLoss
    {
      Tables(tokens, markets, outcomes, orders, trades, profitLoss.rows)
    }

    constructor (t: Tables)
      ensures Snapshot() == t && fresh(profitLoss)
    {
      tokens, markets, outcomes, orders, trades := t.tokens, t.markets, t.outcomes, t.orders, t.trades;
      profitLoss := new ProfitLossTimeseries();
      new;
      profitLoss.rows := t.rows;
    }

    /** Puts every table back: the transaction of a failed log is rolled back. */
    method Rollback(t: Tables)
      requires t.tokens == tokens
      modifies this, profitLoss
      ensures Snapshot() == t
    {
      markets, outcomes, orders, trades := t.markets, t.outcomes, t.orders, t.trades;
      profitLoss.rows := t.rows;
    }

    method UpdateVolumetrics(key: TradeKey, isIncrease: bool) returns (outcome: Result<()>)
      modifies this`markets, this`outcomes
      ensures match VolumetricsUpdated(old(Snapshot()), key, isIncrease)
        case Ok(t) => outcome.Ok? && Snapshot() == t
        case Err(e) => outcome == Err(e) && Snapshot() == old(Snapshot())
    {
      var tradesRow := FirstTrade(trades, key);
      if tradesRow.None? { return Err("trade not found"); }
      if key.id.marketId !in markets { return Err("no market"); }
      if key.id !in outcomes { return Err("no outcome"); }
      var amount := tradesRow.value.amount;
      if !isIncrease { amount := -amount; }
      IncrementMarketVolume(key.id.marketId, amount, tradesRow.value, isIncrease);
      IncrementOutcomeVolume(key.id, amount, tradesRow.value, isIncrease);
      outcome := Ok(());
    }

    method IncrementMarketVolume(marketId: Address, amount: real, tradesRow: TradeRow, isIncrease: bool)
      requires marketId in markets
      modifies this`markets
      ensures var m := old(markets)[marketId];
        var vft := VolumeForTrade(m.bounds, tradesRow.data);
        markets == old(markets)[marketId :=
          m.(volume := m.volume + (if isIncrease then vft else -vft), shareVolume := m.shareVolume + amount)]
    {
      var marketsRow := markets[marketId];
      var newShareVolume := amount + marketsRow.shareVolume;
      var vft := VolumeForTrade(marketsRow.bounds, tradesRow.data);
      if !isIncrease { vft := -vft; }
      markets := markets[marketId := marketsRow.(volume := marketsRow.volume + vft, shareVolume := newShareVolume)];
    }

    method IncrementOutcomeVolume(id: OutcomeId, amount: real, tradesRow: TradeRow, isIncrease: bool)
      requires id.marketId in markets && id in outcomes
      modifies this`outcomes
      ensures var o := old(outcomes)[id];
        var vft := VolumeForTrade(markets[id.marketId].bounds, tradesRow.data);
        outcomes == old(outcomes)[id :=
            OutcomeRow(o.volume + (if isIncrease then vft else -vft), o.shareVolume + amount)]
    {
      var outcomesRow := outcomes[id];
      var newShareVolume := amount + outcomesRow.shareVolume;
      var vft := VolumeForTrade(markets[id.marketId].bounds, tradesRow.data);
      if !isIncrease { vft := -vft; }
      outcomes := outcomes[id := OutcomeRow(outcomesRow.volume + vft, newShareVolume)];
    }

    method UpdateOrder(orderId: OrderId, amount: real, numCreatorShares: real, numCreatorTokens: real)
      requires orderId in orders
      modifies this`orders
      ensures orders == old(orders)[orderId :=
          OrderUpdated(old(orders)[orderId], amount, numCreatorShares, numCreatorTokens)]
    {
      var orderRow := orders[orderId];
      var fullPrecisionAmountRemainingInOrder := orderRow.fullPrecisionAmount - amount;
      var orderState := if fullPrecisionAmountRemainingInOrder == 0.0 then FILLED else OPEN;
      orders := orders[orderId := orderRow.(
        fullPrecisionAmount := fullPrecisionAmountRemainingInOrder,
        sharesEscrowed := orderRow.sharesEscrowed - numCreatorShares,
        tokensEscrowed := orderRow.tokensEscrowed - numCreatorTokens,
        orderState := orderState)];
    }

    method ProcessOrderFilledLog(log: Log) returns (outcome: Result<()>)
      modifies this, profitLoss
      ensures match Filled(old(Snapshot()), log)
        case Ok(t) => outcome.Ok? && Snapshot() == t
        case Err(e) => outcome == Err(e) && Snapshot() == old(Snapshot())
    {
      hide RowsAfter, VolumetricsUpdated, OrderUpdated;
      var before := Snapshot();
      var refusal := Refusal(before, log);
      if refusal.Some? { return Err(refusal.value); }
      var id, ordersRow := tokens[log.shareToken], orders[log.orderId];
      var bounds := markets[id.marketId].bounds;
      var trade := TradeOf(id, ordersRow, log);
      trades := trades + [trade];
      outcome := UpdateVolumetrics(trade.key, true);
      if outcome.Err? { Rollback(before); return; }
      UpdateOrder(log.orderId, log.amount, log.numCreatorShares, log.numCreatorTokens);
      var creatorDelta := if ordersRow.orderType == Buy then log.amount else -log.amount;
      outcome := profitLoss.UpdateProfitLoss(bounds, Key(ordersRow.orderCreator, id.marketId, id.outcome), creatorDelta,
                                             ordersRow.price, log.transactionHash, Some(trade.data));
      if outcome.Err? { Rollback(before); return; }
      var fillerDelta := if ordersRow.orderType == Sell then log.amount else -log.amount;
      outcome := profitLoss.UpdateProfitLoss(bounds, Key(log.filler, id.marketId, id.outcome), fillerDelta,
                                             ordersRow.price, log.transactionHash, Some(trade.data));
      if outcome.Err? { Rollback(before); return; }
    }

    method ProcessOrderFilledLogRemoval(log: Log) returns (outcome: Result<()>)
      modifies this, profitLoss
      ensures match FillRemoved(old(Snapshot()), log)
        case Ok(t) => outcome.Ok? && Snapshot() == t
        case Err(e) => outcome == Err(e) && Snapshot() == old(Snapshot())
    {
      var refusal := Refusal(Snapshot(), log);
      if refusal.Some? { return Err(refusal.value); }
      var key := TradeKey(tokens[log.shareToken], log.orderId, log.blockNumber);
      outcome := UpdateVolumetrics(key, false);
      if outcome.Err? { return; }
      trades := WithoutTrades(trades, key);
      UpdateOrder(log.orderId, -log.amount, -log.numCreatorShares, -log.numCreatorTokens);
      profitLoss.UpdateProfitLossRemoveRow(log.transactionHash);
    }
  }
}
