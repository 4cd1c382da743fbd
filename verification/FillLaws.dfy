/** Laws of processing fills: running figures against the trades table, and undoing fills in any order. */
module FillLaws {
  import opened FinancialMath
  import opened Results
  import opened ProfitLoss
  import opened OrderFilled

  // ---------------------------------------------------------------- running figures

  /** A column that fills change step by step. */
  datatype Measure =
    | MarketVolume(marketId: Address, bounds: Market)
    | MarketShareVolume(marketId: Address)
    | OutcomeVolume(id: OutcomeId, bounds: Market)
    | OutcomeShareVolume(id: OutcomeId)
    | OrderAmount(orderId: OrderId)
    | OrderShares(orderId: OrderId)
    | OrderTokens(orderId: OrderId)

  /** What one stored trade contributes to a column. */
  function Weight(measure: Measure, trade: TradeRow): real {
    match measure
    case MarketVolume(m, bounds) => if trade.key.id.marketId == m then VolumeForTrade(bounds, trade.data) else 0.0
    case MarketShareVolume(m) => if trade.key.id.marketId == m then trade.amount else 0.0
    case OutcomeVolume(id, bounds) => if trade.key.id == id then VolumeForTrade(bounds, trade.data) else 0.0
    case OutcomeShareVolume(id) => if trade.key.id == id then trade.amount else 0.0
    case OrderAmount(orderId) => if trade.key.orderId == orderId then -trade.amount else 0.0
    case OrderShares(orderId) => if trade.key.orderId == orderId then -trade.data.numCreatorShares else 0.0
    case OrderTokens(orderId) => if trade.key.orderId == orderId then -trade.data.numCreatorTokens else 0.0
  }

  /** What the trades table, added up from scratch, says about a column. */
  function Total(measure: Measure, trades: seq<TradeRow>): real {
    if trades == [] then 0.0 else Weight(measure, trades[0]) + Total(measure, trades[1..])
  }

  /** The column is there to be read; volumes are measured with the market's own bounds. */
  predicate Measured(t: Tables, measure: Measure) {
    match measure
    case MarketVolume(m, bounds) => m in t.markets && t.markets[m].bounds == bounds
    case MarketShareVolume(m) => m in t.markets
    case OutcomeVolume(id, bounds) =>
        id in t.outcomes && id.marketId in t.markets && t.markets[id.marketId].bounds == bounds
    case OutcomeShareVolume(id) => id in t.outcomes
    case OrderAmount(orderId) => orderId in t.orders
    case OrderShares(orderId) => orderId in t.orders
    case OrderTokens(orderId) => orderId in t.orders
  }

  /** The column as the tables store it. */
  function Reading(t: Tables, measure: Measure): real
    requires Measured(t, measure)
  {
    match measure
    case MarketVolume(m, _) => t.markets[m].volume
    case MarketShareVolume(m) => t.markets[m].shareVolume
    case OutcomeVolume(id, _) => t.outcomes[id].volume
    case OutcomeShareVolume(id) => t.outcomes[id].shareVolume
    case OrderAmount(orderId) => t.orders[orderId].fullPrecisionAmount
    case OrderShares(orderId) => t.orders[orderId].sharesEscrowed
    case OrderTokens(orderId) => t.orders[orderId].tokensEscrowed
  }

  /** How far the stored column is from what the trades table adds up to. */
  function Discrepancy(t: Tables, measure: Measure): real
    requires Measured(t, measure)
  {
    Reading(t, measure) - Total(measure, t.trades)
  }

  predicate IsVolume(measure: Measure) {
    measure.MarketVolume? || measure.MarketShareVolume? || measure.OutcomeVolume? || measure.OutcomeShareVolume?
  }

  function Matching(trades: seq<TradeRow>, key: TradeKey): seq<TradeRow> {
    if trades == [] then []
    else if trades[0].key == key then [trades[0]] + Matching(trades[1..], key)
    else Matching(trades[1..], key)
  }

  lemma {:induction false} FirstOfMatching(trades: seq<TradeRow>, key: TradeKey)
    ensures FirstTrade(trades, key) == if Matching(trades, key) == [] then None else Some(Matching(trades, key)[0])
    ensures forall trade :: trade in Matching(trades, key) ==> trade.key == key
  {
    if trades != [] {
      FirstOfMatching(trades[1..], key);
    }
  }

  lemma {:induction false} TotalAppend(measure: Measure, trades: seq<TradeRow>, trade: TradeRow)
    ensures Total(measure, trades + [trade]) == Total(measure, trades) + Weight(measure, trade)
  {
    if trades == [] {
      assert [trade][1..] == [];
    } else {
      TotalAppend(measure, trades[1..], trade);
      assert (trades + [trade])[1..] == trades[1..] + [trade];
    }
  }

  lemma {:induction false} MatchingAppend(trades: seq<TradeRow>, trade: TradeRow, key: TradeKey)
    ensures Matching(trades + [trade], key) == Matching(trades, key) + if trade.key == key then [trade] else []
  {
    if trades != [] {
      MatchingAppend(trades[1..], trade, key);
      assert (trades + [trade])[1..] == trades[1..] + [trade];
    } else {
      assert (trades + [trade])[1..] == [];
    }
  }

  lemma {:induction false} TotalSplits(measure: Measure, trades: seq<TradeRow>, key: TradeKey)
    ensures Total(measure, trades) == Total(measure, Matching(trades, key)) + Total(measure, WithoutTrades(trades, key))
  {
    if trades != [] {
      TotalSplits(measure, trades[1..], key);
      if trades[0].key == key {
        assert Matching(trades, key)[1..] == Matching(trades[1..], key);
      } else {
        assert WithoutTrades(trades, key)[1..] == WithoutTrades(trades[1..], key);
      }
    }
  }

  /** The trade a log stores, once the log is known to be processable. */
  function LoggedTrade(t: Tables, log: Log): TradeRow
    requires Refusal(t, log) == None
  {
    TradeOf(t.tokens[log.shareToken], t.orders[log.orderId], log)
  }

  lemma MeasuredStays(t: Tables, after: Tables, measure: Measure)
    requires Measured(t, measure)
    requires t.markets.Keys == after.markets.Keys && t.outcomes.Keys == after.outcomes.Keys
        && t.orders.Keys == after.orders.Keys
    requires forall m <- t.markets :: t.markets[m].bounds == after.markets[m].bounds
    ensures Measured(after, measure)
  {
  }

  lemma FilledKeepsKeys(t: Tables, log: Log)
    requires Filled(t, log).Ok?
    ensures var after := Filled(t, log).value;
      && t.tokens == after.tokens
      && t.markets.Keys == after.markets.Keys && t.outcomes.Keys == after.outcomes.Keys
          && t.orders.Keys == after.orders.Keys
      && (forall m <- t.markets :: t.markets[m].bounds == after.markets[m].bounds)
      && after.trades == t.trades + [LoggedTrade(t, log)]
  {
  }

  lemma RemovalKeepsKeys(t: Tables, log: Log)
    requires FillRemoved(t, log).Ok?
    ensures var after := FillRemoved(t, log).value;
      && t.tokens == after.tokens
      && t.markets.Keys == after.markets.Keys && t.outcomes.Keys == after.outcomes.Keys
          && t.orders.Keys == after.orders.Keys
      && (forall m <- t.markets :: t.markets[m].bounds == after.markets[m].bounds)
      && after.trades == WithoutTrades(t.trades, LoggedTrade(t, log).key)
  {
  }

  /** Processing a fill moves a volume by the weight of the first trade stored under the fill's key, so it stays in
      step with the trades table exactly when that trade weighs what the new one does. */
  lemma FillMovesVolume(t: Tables, log: Log, measure: Measure)
    requires Measured(t, measure) && IsVolume(measure) && Filled(t, log).Ok?
    ensures var after, trade := Filled(t, log).value, LoggedTrade(t, log);
      Measured(after, measure) &&
      Discrepancy(after, measure) - Discrepancy(t, measure)
      == Weight(measure, (Matching(t.trades, trade.key) + [trade])[0]) - Weight(measure, trade)
  {
    FilledKeepsKeys(t, log);
    var after, trade := Filled(t, log).value, LoggedTrade(t, log);
    MeasuredStays(t, after, measure);
    TotalAppend(measure, t.trades, trade);
    MatchingAppend(t.trades, trade, trade.key);
    FirstOfMatching(t.trades + [trade], trade.key);
    var first := Matching(t.trades + [trade], trade.key)[0];
    CountedReading(t.(trades := t.trades + [trade]), trade.key, true, measure, first);
  }

  /** Counting a stored trade in (or out) changes each volume by that trade's weight. */
  lemma CountedReading(t: Tables, key: TradeKey, isIncrease: bool, measure: Measure, first: TradeRow)
    requires Measured(t, measure) && IsVolume(measure)
    requires FirstTrade(t.trades, key) == Some(first) && first.key == key && VolumetricsUpdated(t, key, isIncrease).Ok?
    ensures var after := VolumetricsUpdated(t, key, isIncrease).value;
      Measured(after, measure) &&
      Reading(after, measure) == Reading(t, measure) + if isIncrease then Weight(measure, first)
          else -Weight(measure, first)
  {
    hide VolumeForTrade, FirstTrade;
  }

  /** Removing a fill takes the first matching trade's weight off a volume but deletes every matching trade, so it
      stays in step with the trades table exactly when the other matching trades weigh nothing together. */
  lemma RemovalMovesVolume(t: Tables, log: Log, measure: Measure)
    requires Measured(t, measure) && IsVolume(measure) && FillRemoved(t, log).Ok?
    ensures var after, matching := FillRemoved(t, log).value, Matching(t.trades, LoggedTrade(t, log).key);
      matching != [] && Measured(after, measure) &&
      Discrepancy(after, measure) - Discrepancy(t, measure) == Total(measure, matching[1..])
  {
    RemovalKeepsKeys(t, log);
    var key := LoggedTrade(t, log).key;
    FirstOfMatching(t.trades, key);
    TotalSplits(measure, t.trades, key);
    CountedReading(t, key, false, measure, Matching(t.trades, key)[0]);
  }

  /** An order's remaining amounts always move by the log's own amounts. */
  lemma FillMovesOrder(t: Tables, log: Log, measure: Measure)
    requires Measured(t, measure) && !IsVolume(measure) && Filled(t, log).Ok?
    ensures Measured(Filled(t, log).value, measure)
    ensures Discrepancy(Filled(t, log).value, measure) == Discrepancy(t, measure)
  {
    FilledKeepsKeys(t, log);
    MeasuredStays(t, Filled(t, log).value, measure);
    TotalAppend(measure, t.trades, LoggedTrade(t, log));
  }

  lemma RemovalMovesOrder(t: Tables, log: Log, measure: Measure)
    requires Measured(t, measure) && !IsVolume(measure) && FillRemoved(t, log).Ok?
    ensures var after, trade := FillRemoved(t, log).value, LoggedTrade(t, log);
      Measured(after, measure) &&
      Discrepancy(after, measure) - Discrepancy(t, measure)
      == Total(measure, Matching(t.trades, trade.key)) - Weight(measure, trade)
  {
    RemovalKeepsKeys(t, log);
    MeasuredStays(t, FillRemoved(t, log).value, measure);
    TotalSplits(measure, t.trades, LoggedTrade(t, log).key);
  }

  // ---------------------------------------------------------------- runs of fills

  function AllFilled(t: Tables, logs: seq<Log>): Result<Tables>
    decreases |logs|
  {
    if logs == [] then Ok(t)
    else
      match Filled(t, logs[0])
      case Err(e) => Err(e)
      case Ok(next) => AllFilled(next, logs[1..])
  }

  function AllRemoved(t: Tables, logs: seq<Log>): Result<Tables>
    decreases |logs|
  {
    if logs == [] then Ok(t)
    else
      match FillRemoved(t, logs[0])
      case Err(e) => Err(e)
      case Ok(next) => AllRemoved(next, logs[1..])
  }

  /** Parts of an order that fills never change. */
  predicate SameTerms(a: OrderRow, b: OrderRow) {
    a.orderCreator == b.orderCreator && a.orderType == b.orderType && a.price == b.price
  }

  /** `t` differs from `t0` only as fills and their removals may make it differ: every running figure has moved with
      the trades table, and the orders in `touched` have the state their remaining amount calls for. */
  ghost predicate InStep(t0: Tables, t: Tables, touched: set<OrderId>) {
    && t.tokens == t0.tokens
    && t.markets.Keys == t0.markets.Keys && t.outcomes.Keys == t0.outcomes.Keys && t.orders.Keys == t0.orders.Keys
    && (forall m <- t0.markets :: t.markets[m].bounds == t0.markets[m].bounds)
    && (forall o <- t0.orders :: SameTerms(t.orders[o], t0.orders[o]))
    && (forall o <- t0.orders :: t.orders[o].orderState ==
          if o in touched then StateFor(t.orders[o].fullPrecisionAmount) else t0.orders[o].orderState)
    && (forall measure ::
        Measured(t0, measure) ==> Measured(t, measure) && Discrepancy(t, measure) == Discrepancy(t0, measure))
  }

  lemma FilledInStep(t0: Tables, t: Tables, touched: set<OrderId>, log: Log)
    requires InStep(t0, t, touched) && Filled(t, log).Ok?
    requires Matching(t.trades, LoggedTrade(t, log).key) == []
    ensures InStep(t0, Filled(t, log).value, touched + {log.orderId})
  {
    hide Filled, Refusal, Discrepancy, Matching;
    var after := Filled(t, log).value;
    FilledKeepsKeys(t, log);
    FilledOrders(t, log);
    forall measure | Measured(t0, measure)
      ensures Measured(after, measure) && Discrepancy(after, measure) == Discrepancy(t0, measure)
    {
      if IsVolume(measure) { FillMovesVolume(t, log, measure); } else { FillMovesOrder(t, log, measure); }
    }
  }

  lemma FilledOrders(t: Tables, log: Log)
    requires Filled(t, log).Ok?
    ensures Filled(t, log).value.orders == t.orders[log.orderId :=
      OrderUpdated(t.orders[log.orderId], log.amount, log.numCreatorShares, log.numCreatorTokens)]
  {
  }

  lemma RemovalInStep(t0: Tables, t: Tables, touched: set<OrderId>, log: Log)
    requires InStep(t0, t, touched) && FillRemoved(t, log).Ok?
    requires Matching(t.trades, LoggedTrade(t, log).key) == [LoggedTrade(t, log)]
    ensures InStep(t0, FillRemoved(t, log).value, touched + {log.orderId})
  {
    var after, trade := FillRemoved(t, log).value, LoggedTrade(t, log);
    RemovalKeepsKeys(t, log);
    forall measure | Measured(t0, measure)
      ensures Measured(after, measure) && Discrepancy(after, measure) == Discrepancy(t0, measure)
    {
      assert Total(measure, [trade][1..]) == 0.0 && Total(measure, [trade]) == Weight(measure, trade);
      if IsVolume(measure) { RemovalMovesVolume(t, log, measure); } else { RemovalMovesOrder(t, log, measure); }
    }
  }

  /** An order given the state its remaining amount calls for, if fills touched it. */
  function Restated(order: OrderRow, touched: bool): OrderRow {
    if touched then order.(orderState := StateFor(order.fullPrecisionAmount)) else order
  }

  /** Tables in step with the same trades have the same figures. */
  lemma InStepFigures(t0: Tables, t: Tables, touched: set<OrderId>)
    requires InStep(t0, t, touched) && t.trades == t0.trades
    requires forall id <- t0.outcomes :: id.marketId in t0.markets
    ensures t.markets == t0.markets && t.outcomes == t0.outcomes
    ensures forall o <- t0.orders :: t.orders[o] == Restated(t0.orders[o], o in touched)
  {
    forall m <- t0.markets
      ensures t.markets[m] == t0.markets[m]
    {
      assert Measured(t0, MarketVolume(m, t0.markets[m].bounds)) && Measured(t0, MarketShareVolume(m));
    }
    forall id <- t0.outcomes
      ensures t.outcomes[id] == t0.outcomes[id]
    {
      assert Measured(t0, OutcomeVolume(id, t0.markets[id.marketId].bounds)) && Measured(t0, OutcomeShareVolume(id));
    }
    forall o <- t0.orders
      ensures t.orders[o] == Restated(t0.orders[o], o in touched)
    {
      assert Measured(t0, OrderAmount(o)) && Measured(t0, OrderShares(o)) && Measured(t0, OrderTokens(o));
    }
  }

  // ---------------------------------------------------------------- undoing fills

  predicate DistinctKeys(trades: seq<TradeRow>) {
    forall i, j :: 0 <= i < j < |trades| ==> trades[i].key != trades[j].key
  }

  predicate NoneUnder(trades: seq<TradeRow>, key: TradeKey) {
    forall i :: 0 <= i < |trades| ==> trades[i].key != key
  }

  lemma {:induction false} LookupAppend(a: seq<TradeRow>, b: seq<TradeRow>, key: TradeKey)
    requires NoneUnder(a, key)
    ensures Matching(a + b, key) == Matching(b, key)
    ensures WithoutTrades(a + b, key) == a + WithoutTrades(b, key)
  {
    if a == [] {
      assert a + b == b;
    } else {
      LookupAppend(a[1..], b, key);
      assert (a + b)[1..] == a[1..] + b;
    }
  }

  lemma {:induction false} LookupAbsent(trades: seq<TradeRow>, key: TradeKey)
    requires NoneUnder(trades, key)
    ensures Matching(trades, key) == [] && WithoutTrades(trades, key) == trades
  {
    if trades != [] {
      LookupAbsent(trades[1..], key);
    }
  }

  /** `left` is `trades` with that one trade taken out. */
  ghost predicate TakenOut(trades: seq<TradeRow>, trade: TradeRow, left: seq<TradeRow>) {
    && DistinctKeys(left) && NoneUnder(left, trade.key)
    && multiset(left) == multiset(trades) - multiset{trade}
    && forall x :: x in left ==> x in trades
  }

  lemma DistinctFirst(first: TradeRow, rest: seq<TradeRow>)
    ensures DistinctKeys([first] + rest) <==> NoneUnder(rest, first.key) && DistinctKeys(rest)
  {
    var all := [first] + rest;
    if DistinctKeys(all) {
      forall i | 0 <= i < |rest|
        ensures rest[i].key != first.key
      {
        assert all[0].key != all[i + 1].key;
      }
      forall i, j | 0 <= i < j < |rest|
        ensures rest[i].key != rest[j].key
      {
        assert all[i + 1].key != all[j + 1].key;
      }
    }
    if NoneUnder(rest, first.key) && DistinctKeys(rest) {
      forall i, j | 0 <= i < j < |all|
        ensures all[i].key != all[j].key
      {
        if 0 < i { assert rest[i - 1].key != rest[j - 1].key; } else { assert rest[j - 1].key != first.key; }
      }
    }
  }

  lemma TakenOutBehind(first: TradeRow, rest: seq<TradeRow>, trade: TradeRow, left: seq<TradeRow>)
    requires DistinctKeys([first] + rest) && trade in rest && TakenOut(rest, trade, left)
    ensures TakenOut([first] + rest, trade, [first] + left)
  {
    DistinctFirst(first, rest);
    assert forall i :: 0 <= i < |left| ==> left[i] in rest;
    DistinctFirst(first, left);
    assert multiset([first] + left) == multiset{first} + multiset(left);
    assert multiset([first] + rest) == multiset{first} + multiset(rest);
  }

  /** Deleting the only trade under its key takes out that one trade. */
  lemma {:induction false} DeleteOne(trades: seq<TradeRow>, trade: TradeRow)
    requires DistinctKeys(trades) && trade in trades
    ensures Matching(trades, trade.key) == [trade]
    ensures TakenOut(trades, trade, WithoutTrades(trades, trade.key))
  {
    hide TakenOut;
    var rest := trades[1..];
    assert trades == [trades[0]] + rest;
    DistinctFirst(trades[0], rest);
    if trades[0] == trade {
      LookupAbsent(rest, trade.key);
      FirstTakenOut(trade, rest);
    } else {
      DeleteOne(rest, trade);
      TakenOutBehind(trades[0], rest, trade, WithoutTrades(rest, trade.key));
    }
  }

  lemma FirstTakenOut(trade: TradeRow, rest: seq<TradeRow>)
    requires DistinctKeys([trade] + rest)
    ensures TakenOut([trade] + rest, trade, rest)
  {
    DistinctFirst(trade, rest);
    assert multiset([trade] + rest) == multiset{trade} + multiset(rest);
  }

  predicate Processable(t0: Tables, logs: seq<Log>) {
    forall i :: 0 <= i < |logs| ==> Refusal(t0, logs[i]) == None
  }

  /** The trades that logs store, as the starting tables tell them. */
  function LoggedTrades(t0: Tables, logs: seq<Log>): (trades: seq<TradeRow>)
    requires forall i :: 0 <= i < |logs| ==> Refusal(t0, logs[i]) == None
    ensures |trades| == |logs| && forall i :: 0 <= i < |logs| ==> trades[i] == LoggedTrade(t0, logs[i])
  {
    seq(|logs|, i requires 0 <= i < |logs| => LoggedTrade(t0, logs[i]))
  }

  function Transactions(logs: seq<Log>): set<string> {
    set i | 0 <= i < |logs| :: logs[i].transactionHash
  }

  function OrderIds(logs: seq<Log>): set<OrderId> {
    set i | 0 <= i < |logs| :: logs[i].orderId
  }

  /** The logs can be looked up, no two of them fill one order in one block, and none reuses the key of a stored
      trade or of one of `trades`. */
  ghost predicate FreshLogs(t0: Tables, trades: seq<TradeRow>, logs: seq<Log>) {
    && (forall i :: 0 <= i < |logs| ==> Refusal(t0, logs[i]) == None)
    && DistinctKeys(LoggedTrades(t0, logs))
    && (forall i :: 0 <= i < |logs| ==> NoneUnder(t0.trades, LoggedTrade(t0, logs[i]).key))
    && (forall i :: 0 <= i < |logs| ==> NoneUnder(trades, LoggedTrade(t0, logs[i]).key))
  }

  lemma FreshTail(t0: Tables, trades: seq<TradeRow>, logs: seq<Log>)
    requires FreshLogs(t0, trades, logs) && logs != []
    ensures LoggedTrades(t0, logs) == [LoggedTrade(t0, logs[0])] + LoggedTrades(t0, logs[1..])
    ensures FreshLogs(t0, trades + [LoggedTrade(t0, logs[0])], logs[1..])
  {
    var first, rest := LoggedTrade(t0, logs[0]), LoggedTrades(t0, logs[1..]);
    assert LoggedTrades(t0, logs) == [first] + rest;
    DistinctFirst(first, rest);
    forall i | 0 <= i < |logs[1..]|
      ensures NoneUnder(trades + [first], LoggedTrade(t0, logs[1..][i]).key)
    {
      assert rest[i] == LoggedTrade(t0, logs[i + 1]);
      assert NoneUnder(trades, rest[i].key);
    }
  }

  lemma FreshFirst(t0: Tables, trades: seq<TradeRow>, logs: seq<Log>)
    requires FreshLogs(t0, trades, logs) && logs != []
    ensures Refusal(t0, logs[0]) == None && Processable(t0, logs) && Processable(t0, logs[1..])
    ensures NoneUnder(t0.trades, LoggedTrade(t0, logs[0]).key) && NoneUnder(trades, LoggedTrade(t0, logs[0]).key)
    ensures FreshLogs(t0, trades + [LoggedTrade(t0, logs[0])], logs[1..]) && FreshLogs(t0, trades, logs[1..])
    ensures LoggedTrades(t0, logs) == [LoggedTrade(t0, logs[0])] + LoggedTrades(t0, logs[1..])
  {
    FreshTail(t0, trades, logs);
    var all := trades + [LoggedTrade(t0, logs[0])];
    assert forall i :: 0 <= i < |trades| ==> trades[i] == all[i];
  }

  lemma SameLoggedTrade(t0: Tables, t: Tables, touched: set<OrderId>, log: Log)
    requires InStep(t0, t, touched) && Refusal(t0, log) == None
    ensures Refusal(t, log) == None && LoggedTrade(t, log) == LoggedTrade(t0, log)
  {
  }

  lemma UpdateAddsRows(rows: seq<Row>, market: Market, key: Key, delta: real, price: real, tx: string,
      data: Option<TradeData>)
    requires RowsAfter(rows, market, key, delta, price, tx, data).Ok?
    ensures var after := RowsAfter(rows, market, key, delta, price, tx, data).value;
      rows <= after && forall i :: |rows| <= i < |after| ==> after[i].transactionHash == tx
  {
  }

  lemma FilledAddsRows(t: Tables, log: Log)
    requires Filled(t, log).Ok?
    ensures var after := Filled(t, log).value.rows;
      t.rows <= after && forall i :: |t.rows| <= i < |after| ==> after[i].transactionHash == log.transactionHash
  {
    hide RowsAfter;
    var trade := LoggedTrade(t, log);
    var data, id, bounds := trade.data, trade.key.id, t.markets[trade.key.id.marketId].bounds;
    var creatorDelta := if data.orderType == Buy then trade.amount else -trade.amount;
    var fillerDelta := if data.orderType == Sell then trade.amount else -trade.amount;
    var key := Key(data.creator, id.marketId, id.outcome);
    UpdateAddsRows(t.rows, bounds, key, creatorDelta, data.price, log.transactionHash, Some(data));
    var mid := RowsAfter(t.rows, bounds, key, creatorDelta, data.price, log.transactionHash, Some(data)).value;
    UpdateAddsRows(mid, bounds, Key(data.filler, id.marketId, id.outcome), fillerDelta, data.price,
        log.transactionHash, Some(data));
  }

  /** The state between fills and removals: the fills still stored are `trades`, after the starting ones, and the
      profit-and-loss rows past the starting ones belong to their transactions. */
  ghost predicate Holding(t0: Tables, t: Tables, touched: set<OrderId>, trades: seq<TradeRow>,
      transactions: set<string>) {
    && InStep(t0, t, touched)
    && t.trades == t0.trades + trades
    && t0.rows <= t.rows
    && forall i :: |t0.rows| <= i < |t.rows| ==> t.rows[i].transactionHash in transactions
  }

  lemma FillStepHolds(t0: Tables, t: Tables, touched: set<OrderId>, trades: seq<TradeRow>,
      transactions: set<string>, log: Log)
    requires Holding(t0, t, touched, trades, transactions) && Refusal(t0, log) == None && Filled(t, log).Ok?
    requires NoneUnder(t0.trades, LoggedTrade(t0, log).key) && NoneUnder(trades, LoggedTrade(t0, log).key)
    ensures Holding(t0, Filled(t, log).value, touched + {log.orderId}, trades + [LoggedTrade(t0, log)],
                    transactions + {log.transactionHash})
    ensures LoggedTrade(t0, log).key.id in t0.outcomes
  {
    hide Filled, InStep, Matching, Refusal, TradeOf, WithoutTrades, NoneUnder;
    var trade := LoggedTrade(t0, log);
    SameLoggedTrade(t0, t, touched, log);
    LookupAppend(t0.trades, trades, trade.key);
    LookupAbsent(trades, trade.key);
    FilledInStep(t0, t, touched, log);
    FilledNeedsOutcome(t, log);
    FilledAddsRows(t, log);
    FilledKeepsKeys(t, log);
    InStepOutcomes(t0, t, touched);
  }

  lemma InStepOutcomes(t0: Tables, t: Tables, touched: set<OrderId>)
    requires InStep(t0, t, touched)
    ensures t.outcomes.Keys == t0.outcomes.Keys
  {
  }

  lemma FilledNeedsOutcome(t: Tables, log: Log)
    requires Filled(t, log).Ok?
    ensures LoggedTrade(t, log).key.id in t.outcomes
  {
  }

  lemma SplitSets(logs: seq<Log>)
    requires logs != []
    ensures Transactions(logs) == {logs[0].transactionHash} + Transactions(logs[1..])
    ensures OrderIds(logs) == {logs[0].orderId} + OrderIds(logs[1..])
  {
    var rest := logs[1..];
    assert forall i :: 0 < i < |logs| ==> logs[i] == rest[i - 1];
    assert forall i :: 0 <= i < |rest| ==> rest[i] == logs[i + 1];
  }

  lemma {:induction false} FillsHold(t0: Tables, t: Tables, touched: set<OrderId>, trades: seq<TradeRow>,
      transactions: set<string>, logs: seq<Log>)
    requires FreshLogs(t0, trades, logs) && AllFilled(t, logs).Ok?
    requires Holding(t0, t, touched, trades, transactions)
    ensures Holding(t0, AllFilled(t, logs).value, touched + OrderIds(logs), trades + LoggedTrades(t0, logs),
                    transactions + Transactions(logs))
    ensures forall i :: 0 <= i < |logs| ==> LoggedTrade(t0, logs[i]).key.id in t0.outcomes
    decreases |logs|
  {
    hide Holding, Filled, TradeOf, Refusal, FreshLogs, LoggedTrades, OrderIds, Transactions, DistinctKeys, NoneUnder;
    if logs == [] {
      NothingLogged(t0, logs);
      assert touched + {} == touched && transactions + {} == transactions && trades + [] == trades;
    } else {
      FreshFirst(t0, trades, logs);
      var log, trade := logs[0], LoggedTrade(t0, logs[0]);
      FillStepHolds(t0, t, touched, trades, transactions, log);
      FillsHold(t0, Filled(t, log).value, touched + {log.orderId}, trades + [trade],
                transactions + {log.transactionHash}, logs[1..]);
      SplitSets(logs);
      assert touched + {log.orderId} + OrderIds(logs[1..]) == touched + OrderIds(logs);
      assert transactions + {log.transactionHash} + Transactions(logs[1..]) == transactions + Transactions(logs);
      assert trades + [trade] + LoggedTrades(t0, logs[1..]) == trades + LoggedTrades(t0, logs);
    }
  }

  lemma NothingLogged(t0: Tables, logs: seq<Log>)
    requires logs == []
    ensures Processable(t0, logs) && LoggedTrades(t0, logs) == [] && OrderIds(logs) == {} && Transactions(logs) == {}
  {
  }

  lemma {:induction false} RowsStay(rows: seq<Row>, transaction: string, added: seq<Row>)
    requires forall i :: 0 <= i < |rows| ==> rows[i].transactionHash != transaction
    ensures WithoutTransaction(rows + added, transaction) == rows + WithoutTransaction(added, transaction)
  {
    if rows == [] {
      assert rows + added == added;
    } else {
      RowsStay(rows[1..], transaction, added);
      assert (rows + added)[1..] == rows[1..] + added;
    }
  }

  lemma {:induction false} RowsGo(rows: seq<Row>, transaction: string)
    ensures forall row ::
        row in WithoutTransaction(rows, transaction) ==> row in rows && row.transactionHash != transaction
  {
    if rows != [] {
      RowsGo(rows[1..], transaction);
    }
  }

  /** Removing one fill that is still stored succeeds, and leaves the others held. */
  lemma RemovalStepHolds(t0: Tables, t: Tables, touched: set<OrderId>, trades: seq<TradeRow>,
      transactions: set<string>, log: Log)
    requires Holding(t0, t, touched, trades, transactions) && Refusal(t0, log) == None
    requires NoneUnder(t0.trades, LoggedTrade(t0, log).key)
    requires DistinctKeys(trades) && LoggedTrade(t0, log) in trades && LoggedTrade(t0, log).key.id in t0.outcomes
    requires forall i :: 0 <= i < |t0.rows| ==> t0.rows[i].transactionHash != log.transactionHash
    ensures FillRemoved(t, log).Ok?
    ensures Holding(t0, FillRemoved(t, log).value, touched + {log.orderId},
                    WithoutTrades(trades, LoggedTrade(t0, log).key), transactions - {log.transactionHash})
  {
    hide FillRemoved, InStep, Matching, Refusal, TradeOf, WithoutTrades, NoneUnder, WithoutTransaction, TakenOut,
        DistinctKeys, FirstTrade;
    var trade := LoggedTrade(t0, log);
    SameLoggedTrade(t0, t, touched, log);
    InStepOutcomes(t0, t, touched);
    DeleteOne(trades, trade);
    LookupAppend(t0.trades, trades, trade.key);
    FirstOfMatching(t.trades, trade.key);
    RemovalSucceeds(t, log);
    RemovalInStep(t0, t, touched, log);
    RemovalKeepsKeys(t, log);
    var added := t.rows[|t0.rows|..];
    assert t.rows == t0.rows + added;
    RowsStay(t0.rows, log.transactionHash, added);
    RowsGo(added, log.transactionHash);
    assert FillRemoved(t, log).value.rows == WithoutTransaction(t.rows, log.transactionHash) by { RemovedRows(t, log); }
    var left := WithoutTransaction(added, log.transactionHash);
    var after := FillRemoved(t, log).value;
    assert after.rows == t0.rows + left;
    forall i | |t0.rows| <= i < |after.rows|
      ensures after.rows[i].transactionHash in transactions - {log.transactionHash}
    {
      assert after.rows[i] in left;
      assert after.rows[i] in added;
    }
  }

  lemma RemovalSucceeds(t: Tables, log: Log)
    requires Refusal(t, log) == None && LoggedTrade(t, log).key.id in t.outcomes
    requires FirstTrade(t.trades, LoggedTrade(t, log).key).Some?
    ensures FillRemoved(t, log).Ok?
  {
  }

  lemma RemovedRows(t: Tables, log: Log)
    requires FillRemoved(t, log).Ok?
    ensures FillRemoved(t, log).value.rows == WithoutTransaction(t.rows, log.transactionHash)
  {
  }

  lemma LeftOver(trades: seq<TradeRow>, trade: TradeRow, left: seq<TradeRow>, rest: seq<TradeRow>)
    requires TakenOut(trades, trade, left) && multiset(trades) == multiset([trade] + rest)
    ensures multiset(left) == multiset(rest) && DistinctKeys(left)
  {
    assert multiset([trade] + rest) == multiset{trade} + multiset(rest);
  }

  lemma FirstIsStored(trades: seq<TradeRow>, trade: TradeRow, rest: seq<TradeRow>)
    requires multiset(trades) == multiset([trade] + rest)
    ensures trade in trades
  {
    assert trade in multiset([trade] + rest);
  }

  /** Removing, in any order, exactly the fills that are still stored succeeds and leaves none. */
  lemma {:induction false} RemovalsHold(t0: Tables, t: Tables, touched: set<OrderId>, trades: seq<TradeRow>,
      transactions: set<string>, logs: seq<Log>)
    requires FreshLogs(t0, [], logs) && Holding(t0, t, touched, trades, transactions)
    requires DistinctKeys(trades) && multiset(trades) == multiset(LoggedTrades(t0, logs))
    requires transactions <= Transactions(logs)
    requires forall i :: 0 <= i < |t0.rows| ==> t0.rows[i].transactionHash !in Transactions(logs)
    requires forall i :: 0 <= i < |logs| ==> LoggedTrade(t0, logs[i]).key.id in t0.outcomes
    ensures AllRemoved(t, logs).Ok?
    ensures Holding(t0, AllRemoved(t, logs).value, touched + OrderIds(logs), [], {})
    decreases |logs|
  {
    hide Holding, FillRemoved, TradeOf, Refusal, FreshLogs, LoggedTrades, DistinctKeys, NoneUnder, TakenOut,
        WithoutTrades, OrderIds, Transactions;
    if logs == [] {
      NothingLogged(t0, logs);
      NothingLeft(trades);
      assert touched + OrderIds(logs) == touched && transactions == {};
    } else {
      FreshFirst(t0, [], logs);
      var log, trade, rest := logs[0], LoggedTrade(t0, logs[0]), logs[1..];
      SplitSets(logs);
      FirstIsStored(trades, trade, LoggedTrades(t0, rest));
      RemovalStepHolds(t0, t, touched, trades, transactions, log);
      DeleteOne(trades, trade);
      var left := WithoutTrades(trades, trade.key);
      LeftOver(trades, trade, left, LoggedTrades(t0, rest));
      RemovalsHold(t0, FillRemoved(t, log).value, touched + {log.orderId}, left,
                   transactions - {log.transactionHash}, rest);
      assert touched + {log.orderId} + OrderIds(rest) == touched + OrderIds(logs);
    }
  }

  lemma NothingLeft(trades: seq<TradeRow>)
    requires multiset(trades) == multiset{}
    ensures trades == []
  {
    assert |multiset(trades)| == |trades|;
  }

  // ---------------------------------------------------------------- any order

  lemma {:induction false} DistinctInAnyOrder(a: seq<TradeRow>, b: seq<TradeRow>)
    requires DistinctKeys(a) && multiset(a) == multiset(b)
    ensures DistinctKeys(b)
    decreases |b|
  {
    hide DistinctKeys;
    if b == [] {
      assert DistinctKeys(b) by { NothingIsDistinct(); }
    } else {
      assert b == [b[0]] + b[1..];
      FirstIsStored(a, b[0], b[1..]);
      DeleteOne(a, b[0]);
      var left := WithoutTrades(a, b[0].key);
      LeftOver(a, b[0], left, b[1..]);
      DistinctInAnyOrder(left, b[1..]);
      forall i | 0 <= i < |b[1..]|
        ensures b[1..][i].key != b[0].key
      {
        assert b[1..][i] in multiset(left);
      }
      DistinctFirst(b[0], b[1..]);
    }
  }

  lemma NothingIsDistinct()
    ensures DistinctKeys([])
  {
  }

  lemma LoggedConcat(t0: Tables, a: seq<Log>, b: seq<Log>)
    requires Processable(t0, a) && Processable(t0, b)
    ensures Processable(t0, a + b) && LoggedTrades(t0, a + b) == LoggedTrades(t0, a) + LoggedTrades(t0, b)
  {
  }

  /** One log more among others, wherever it stands, is one stored trade more. */
  lemma LoggedInsert(t0: Tables, left: seq<Log>, x: Log, right: seq<Log>)
    requires Processable(t0, left) && Processable(t0, [x]) && Processable(t0, right)
    ensures Processable(t0, left + right) && Processable(t0, left + [x] + right) && Refusal(t0, x) == None
    ensures multiset(LoggedTrades(t0, left + [x] + right))
        == multiset(LoggedTrades(t0, left + right)) + multiset{LoggedTrade(t0, x)}
  {
    hide LoggedTrades, Refusal, TradeOf, Processable;
    assert Refusal(t0, x) == None by { ProcessableOne(t0, x); }
    LoggedConcat(t0, left, right);
    LoggedConcat(t0, left, [x]);
    LoggedConcat(t0, left + [x], right);
    ProcessableOne(t0, x);
  }

  lemma ProcessableOne(t0: Tables, x: Log)
    requires Processable(t0, [x])
    ensures Refusal(t0, x) == None && LoggedTrades(t0, [x]) == [LoggedTrade(t0, x)]
  {
    assert [x][0] == x;
  }

  lemma ProcessableParts(t0: Tables, left: seq<Log>, x: Log, right: seq<Log>)
    requires Processable(t0, left + [x] + right)
    ensures Processable(t0, left) && Processable(t0, [x]) && Processable(t0, right)
  {
    hide Refusal;
    var all := left + [x] + right;
    assert forall i :: 0 <= i < |left| ==> left[i] == all[i];
    assert all[|left|] == x;
    assert forall i :: 0 <= i < |right| ==> right[i] == all[|left| + 1 + i];
  }

  lemma FindAmong(a: seq<Log>, x: Log, rest: seq<Log>) returns (left: seq<Log>, right: seq<Log>)
    requires multiset(a) == multiset([x] + rest)
    ensures a == left + [x] + right && multiset(left + right) == multiset(rest)
  {
    assert x in multiset([x] + rest);
    var i :| 0 <= i < |a| && a[i] == x;
    left, right := a[..i], a[i + 1..];
    assert a == left + [x] + right;
    assert multiset(a) == multiset(left + right) + multiset{x};
    assert multiset(left + right) == multiset(a) - multiset{x};
    assert multiset([x] + rest) - multiset{x} == multiset(rest);
  }

  /** Refusals and stored trades are looked up log by log, so they do not depend on the order of the logs. */
  lemma {:induction false} LoggedInAnyOrder(t0: Tables, a: seq<Log>, b: seq<Log>)
    requires Processable(t0, a) && multiset(a) == multiset(b)
    ensures Processable(t0, b)
    ensures multiset(LoggedTrades(t0, a)) == multiset(LoggedTrades(t0, b))
    decreases |b|
  {
    hide LoggedTrades, Processable;
    ProcessableMembers(t0, a, b);
    if b == [] {
      assert |multiset(a)| == |a| && |multiset(b)| == 0;
      assert a == b;
    } else {
      var x, rest := b[0], b[1..];
      assert b == [] + [x] + rest == [x] + rest;
      var left, right := FindAmong(a, x, rest);
      ProcessableParts(t0, left, x, right);
      ProcessableParts(t0, [], x, rest);
      LoggedInsert(t0, left, x, right);
      LoggedInsert(t0, [], x, rest);
      assert [] + rest == rest;
      LoggedInAnyOrder(t0, left + right, rest);
    }
  }

  lemma ProcessableMembers(t0: Tables, a: seq<Log>, b: seq<Log>)
    requires Processable(t0, a) && multiset(a) == multiset(b)
    ensures Processable(t0, b)
  {
    hide Refusal;
    forall i | 0 <= i < |b|
      ensures Refusal(t0, b[i]) == None
    {
      assert b[i] in multiset(a);
    }
  }

  lemma SameMembers(a: seq<Log>, b: seq<Log>)
    requires multiset(a) == multiset(b)
    ensures Transactions(a) <= Transactions(b) && OrderIds(a) <= OrderIds(b)
  {
    forall i | 0 <= i < |a|
      ensures a[i] in b
    {
      assert a[i] in multiset(b);
    }
  }

  lemma FreshInAnyOrder(t0: Tables, a: seq<Log>, b: seq<Log>)
    requires FreshLogs(t0, [], a) && multiset(a) == multiset(b)
    ensures FreshLogs(t0, [], b) && Processable(t0, a) && Processable(t0, b)
    ensures multiset(LoggedTrades(t0, a)) == multiset(LoggedTrades(t0, b)) && DistinctKeys(LoggedTrades(t0, a))
    ensures Transactions(a) == Transactions(b) && OrderIds(a) == OrderIds(b)
  {
    hide Refusal, TradeOf, DistinctKeys, NoneUnder, LoggedTrades, Transactions, OrderIds;
    LoggedInAnyOrder(t0, a, b);
    SameMembers(a, b);
    SameMembers(b, a);
    DistinctInAnyOrder(LoggedTrades(t0, a), LoggedTrades(t0, b));
    NoneInNothing();
    forall i | 0 <= i < |b|
      ensures NoneUnder(t0.trades, LoggedTrade(t0, b[i]).key)
    {
      assert b[i] in multiset(a);
    }
  }

  lemma NoneInNothing()
    ensures forall key :: NoneUnder([], key)
  {
  }

  lemma HoldsAtStart(t0: Tables)
    ensures Holding(t0, t0, {}, [], {})
  {
  }

  /** Undo: after any fills, removing the same fills in any order succeeds and restores the trades, every volume and
      every order's remaining amounts, and the profit-and-loss rows; a touched order gets the state its amount calls
      for. */
  lemma UndoFills(t0: Tables, fills: seq<Log>, removals: seq<Log>)
    requires FreshLogs(t0, [], fills) && AllFilled(t0, fills).Ok?
    requires forall i :: 0 <= i < |t0.rows| ==> t0.rows[i].transactionHash !in Transactions(fills)
    requires forall id <- t0.outcomes :: id.marketId in t0.markets
    requires multiset(removals) == multiset(fills)
    ensures var undone := AllRemoved(AllFilled(t0, fills).value, removals);
      && undone.Ok?
      && undone.value.(orders := t0.orders) == t0
      && undone.value.orders.Keys == t0.orders.Keys
      && forall o <- t0.orders :: undone.value.orders[o] == Restated(t0.orders[o], o in OrderIds(fills))
  {
    hide AllFilled, AllRemoved, Refusal, TradeOf, InStep, Transactions, OrderIds, LoggedTrades, FreshLogs;
    HoldsAtStart(t0);
    FreshInAnyOrder(t0, fills, removals);
    FillsHold(t0, t0, {}, [], {}, fills);
    OutcomesInAnyOrder(t0, fills, removals);
    assert [] + LoggedTrades(t0, fills) == LoggedTrades(t0, fills) && {} + Transactions(fills) == Transactions(fills);
    assert {} + OrderIds(fills) == OrderIds(fills);
    var filled := AllFilled(t0, fills).value;
    RemovalsHold(t0, filled, OrderIds(fills), LoggedTrades(t0, fills), Transactions(fills), removals);
    var undone := AllRemoved(filled, removals).value;
    assert OrderIds(fills) + OrderIds(removals) == OrderIds(fills);
    UndoneHeld(t0, undone, OrderIds(fills));
  }

  lemma OutcomesInAnyOrder(t0: Tables, a: seq<Log>, b: seq<Log>)
    requires FreshLogs(t0, [], a) && FreshLogs(t0, [], b) && multiset(a) == multiset(b)
    requires forall i :: 0 <= i < |a| ==> LoggedTrade(t0, a[i]).key.id in t0.outcomes
    ensures forall i :: 0 <= i < |b| ==> LoggedTrade(t0, b[i]).key.id in t0.outcomes
  {
    hide Refusal, TradeOf;
    forall i | 0 <= i < |b|
      ensures LoggedTrade(t0, b[i]).key.id in t0.outcomes
    {
      assert b[i] in multiset(a);
      assert b[i] in a;
    }
  }

  lemma SomeTransaction(rows: seq<Row>, transactions: set<string>)
    requires forall i :: 0 <= i < |rows| ==> rows[i].transactionHash in transactions
    ensures rows == [] || exists x :: x in transactions
  {
    if rows != [] { assert rows[0].transactionHash in transactions; }
  }

  lemma UndoneHeld(t0: Tables, t: Tables, touched: set<OrderId>)
    requires Holding(t0, t, touched, [], {})
    requires forall id <- t0.outcomes :: id.marketId in t0.markets
    ensures t.(orders := t0.orders) == t0 && t.orders.Keys == t0.orders.Keys
    ensures forall o <- t0.orders :: t.orders[o] == Restated(t0.orders[o], o in touched)
  {
    assert t.trades == t0.trades + [] == t0.trades;
    InStepFigures(t0, t, touched);
    var added := t.rows[|t0.rows|..];
    assert t.rows == t0.rows + added;
    SomeTransaction(added, {});
  }

  lemma OrdersRestored(before: map<OrderId, OrderRow>, after: map<OrderId, OrderRow>, touched: set<OrderId>)
    requires after.Keys == before.Keys && touched <= before.Keys
    requires forall o <- before :: after[o] == Restated(before[o], o in touched)
    ensures after == before <==> forall o <- touched :: before[o].orderState == StateFor(before[o].fullPrecisionAmount)
  {
  }

  /** Undoing restores every table exactly when each filled order had, before, the state its amount calls for. */
  lemma UndoIsExact(t0: Tables, fills: seq<Log>, removals: seq<Log>)
    requires FreshLogs(t0, [], fills) && AllFilled(t0, fills).Ok?
    requires forall i :: 0 <= i < |t0.rows| ==> t0.rows[i].transactionHash !in Transactions(fills)
    requires forall id <- t0.outcomes :: id.marketId in t0.markets
    requires multiset(removals) == multiset(fills)
    ensures AllRemoved(AllFilled(t0, fills).value, removals) == Ok(t0) <==>
      forall i :: 0 <= i < |fills| ==>
        t0.orders[fills[i].orderId].orderState == StateFor(t0.orders[fills[i].orderId].fullPrecisionAmount)
  {
    UndoFills(t0, fills, removals);
    var undone := AllRemoved(AllFilled(t0, fills).value, removals).value;
    hide AllFilled, AllRemoved, TradeOf, Restated;
    forall i | 0 <= i < |fills|
      ensures fills[i].orderId in OrderIds(fills) && fills[i].orderId in t0.orders
    {
      assert Refusal(t0, fills[i]) == None;
    }
    OrdersRestored(t0.orders, undone.orders, OrderIds(fills));
  }
}
