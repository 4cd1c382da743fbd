/** What fills do to the parties' positions, and the rows they write against the trades they store. */
module FillHistories {
  import opened FinancialMath
  import opened RealMath
  import opened Results
  import opened ProfitLoss
  import opened PositionSteps
  import opened PositionHistory
  import opened OrderFilled
  import opened FillLaws
  import opened AccountLaws

  // ---------------------------------------------------------------- one fill

  /** A log is processed exactly when its token, market, order and outcome are stored. */
  lemma ProcessedExactlyIf(t: Tables, log: Log)
    ensures Filled(t, log).Ok? <==>
      && log.shareToken in t.tokens && t.tokens[log.shareToken].marketId in t.markets
      && log.orderId in t.orders && t.tokens[log.shareToken] in t.outcomes
  {
    hide VolumeForTrade, Carry, GetFrozenFundsAfterEvent, RealizedProfitDelta, Latest;
    if Refusal(t, log) == None {
      var trade := LoggedTrade(t, log);
      MatchingAppend(t.trades, trade, trade.key);
      FirstOfMatching(t.trades + [trade], trade.key);
    }
  }

  /** And removed exactly when, besides, a trade is stored under its key. */
  lemma RemovedExactlyIf(t: Tables, log: Log)
    ensures FillRemoved(t, log).Ok? <==>
      && log.shareToken in t.tokens && t.tokens[log.shareToken].marketId in t.markets
      && log.orderId in t.orders && t.tokens[log.shareToken] in t.outcomes
      && exists trade :: trade in t.trades
           && trade.key == TradeKey(t.tokens[log.shareToken], log.orderId, log.blockNumber)
  {
    hide VolumeForTrade;
    if Refusal(t, log) == None {
      FirstIsThere(t.trades, TradeKey(t.tokens[log.shareToken], log.orderId, log.blockNumber));
    }
  }

  lemma {:induction false} FirstIsThere(trades: seq<TradeRow>, key: TradeKey)
    ensures FirstTrade(trades, key).Some? <==> exists trade :: trade in trades && trade.key == key
  {
    if trades != [] {
      FirstIsThere(trades[1..], key);
      assert trades == [trades[0]] + trades[1..];
    }
  }

  /** The trade stored takes its market and outcome from the log's token, creator, direction and price from the order,
      and all else from the log. */
  lemma StoredTradeIsLogged(t: Tables, log: Log)
    requires Filled(t, log).Ok?
    ensures var order := t.orders[log.orderId];
      Filled(t, log).value.trades == t.trades + [TradeRow(
        TradeKey(t.tokens[log.shareToken], log.orderId, log.blockNumber), log.amount,
        TradeData(order.orderType, order.orderCreator, log.filler, order.price,
                  log.numCreatorTokens, log.numCreatorShares, log.numFillerTokens, log.numFillerShares))]
  {
    FilledKeepsKeys(t, log);
  }

  /** The updates a trade makes: the creator's buy or sell, and the filler's opposite one. */
  function CreatorUpdate(trade: TradeRow): Update {
    Update(if trade.data.orderType == Buy then trade.amount else -trade.amount, trade.data.price, Some(trade.data))
  }

  function FillerUpdate(trade: TradeRow): Update {
    Update(if trade.data.orderType == Sell then trade.amount else -trade.amount, trade.data.price, Some(trade.data))
  }

  /** A position after a trade's updates of one account in one outcome. */
  function TradeAdvances(market: Market, p: Position, trade: TradeRow, key: Key): Position {
    if trade.key.id != OutcomeId(key.marketId, key.outcome) then p
    else
      var q := if trade.data.creator == key.account then Advance(market, key.account, p, CreatorUpdate(trade)) else p;
      if trade.data.filler == key.account then Advance(market, key.account, q, FillerUpdate(trade)) else q
  }

  /** The rows after a fill, account by account. */
  lemma FilledRows(t: Tables, log: Log, key: Key)
    requires Filled(t, log).Ok? && key.marketId in t.markets
    ensures Refusal(t, log) == None
    ensures Latest(Filled(t, log).value.rows, key)
         == TradeAdvances(t.markets[key.marketId].bounds, Latest(t.rows, key), LoggedTrade(t, log), key)
  {
    hide RowsAfter, Latest, Advance, VolumetricsUpdated;
    var trade := LoggedTrade(t, log);
    var data, id, market := trade.data, trade.key.id, t.markets[trade.key.id.marketId].bounds;
    var c, f := CreatorUpdate(trade), FillerUpdate(trade);
    var ck, fk := Key(data.creator, id.marketId, id.outcome), Key(data.filler, id.marketId, id.outcome);
    UpdateAdvances(t.rows, market, ck, c, log.transactionHash);
    var mid := RowsAfter(t.rows, market, ck, c.delta, data.price, log.transactionHash, Some(data)).value;
    UpdateAdvances(mid, market, fk, f, log.transactionHash);
  }

  /** Who moves which way: the creator of a filled buy order gains the shares and the filler loses them, and the other
      way round for a sell order; no other position moves. An account that fills its own order does not move. */
  lemma FillMovesPositions(t: Tables, log: Log, key: Key)
    requires Filled(t, log).Ok? && key.marketId in t.markets
    ensures var order, id := t.orders[log.orderId], t.tokens[log.shareToken];
      Latest(Filled(t, log).value.rows, key).position - Latest(t.rows, key).position ==
        (if id == OutcomeId(key.marketId, key.outcome) && key.account == order.orderCreator
         then if order.orderType == Buy then log.amount else -log.amount else 0.0)
        + (if id == OutcomeId(key.marketId, key.outcome) && key.account == log.filler
           then if order.orderType == Buy then -log.amount else log.amount else 0.0)
  {
    assert Refusal(t, log) == None;
    hide Filled, Latest, Advance, MarkedGain;
    FilledRows(t, log, key);
    var trade, market, p := LoggedTrade(t, log), t.markets[key.marketId].bounds, Latest(t.rows, key);
    var c, f := CreatorUpdate(trade), FillerUpdate(trade);
    if key.account == trade.data.creator {
      MarkedStep(market, key.account, p, c, 0.0);
    }
    if key.account == trade.data.filler {
      MarkedStep(market, key.account, p, f, 0.0);
    }
    if key.account == trade.data.creator == trade.data.filler {
      MarkedStep(market, key.account, Advance(market, key.account, p, c), f, 0.0);
    }
  }

  // ---------------------------------------------------------------- histories

  /** One account's updates in one outcome, by the trades stored. */
  function History(trades: seq<TradeRow>, key: Key): seq<Update> {
    if trades == [] then []
    else
      var before, trade := History(trades[..|trades| - 1], key), trades[|trades| - 1];
      if trade.key.id != OutcomeId(key.marketId, key.outcome) then before
      else
        before + (if trade.data.creator == key.account then [CreatorUpdate(trade)] else [])
               + (if trade.data.filler == key.account then [FillerUpdate(trade)] else [])
  }

  lemma AfterAppend(market: Market, account: Address, updates: seq<Update>, u: Update)
    ensures After(market, account, updates + [u]) == Advance(market, account, After(market, account, updates), u)
  {
    assert (updates + [u])[..|updates|] == updates;
  }

  /** Every account's latest row in every outcome is what its stored trades make of it. */
  ghost predicate RowsTellHistories(t: Tables) {
    forall key: Key :: key.marketId in t.markets ==>
      Latest(t.rows, key) == After(t.markets[key.marketId].bounds, key.account, History(t.trades, key))
  }

  lemma HistoryAdvances(market: Market, trades: seq<TradeRow>, trade: TradeRow, key: Key)
    ensures After(market, key.account, History(trades + [trade], key))
         == TradeAdvances(market, After(market, key.account, History(trades, key)), trade, key)
  {
    hide Advance, CreatorUpdate, FillerUpdate;
    assert (trades + [trade])[..|trades|] == trades;
    var h, c, f := History(trades, key), CreatorUpdate(trade), FillerUpdate(trade);
    AfterAppend(market, key.account, h, c);
    AfterAppend(market, key.account, h, f);
    AfterAppend(market, key.account, h + [c], f);
    assert h + [] == h && h + [c] + [] == h + [c] && h + [] + [f] == h + [f];
  }

  lemma FillKeepsHistories(t: Tables, log: Log)
    requires RowsTellHistories(t) && Filled(t, log).Ok?
    ensures RowsTellHistories(Filled(t, log).value)
  {
    hide Filled, Latest, After, History, TradeAdvances;
    FilledKeepsKeys(t, log);
    var after := Filled(t, log).value;
    forall key: Key | key.marketId in after.markets
      ensures Latest(after.rows, key)
           == After(after.markets[key.marketId].bounds, key.account, History(after.trades, key))
    {
      FilledRows(t, log, key);
      HistoryAdvances(t.markets[key.marketId].bounds, t.trades, LoggedTrade(t, log), key);
    }
  }

  /** Over any fills, the rows stay what the stored trades make of them; so they are from empty tables on. */
  lemma {:induction false} FillsKeepHistories(t: Tables, logs: seq<Log>)
    requires RowsTellHistories(t) && AllFilled(t, logs).Ok?
    ensures RowsTellHistories(AllFilled(t, logs).value)
    decreases |logs|
  {
    hide RowsTellHistories, Filled;
    if logs != [] {
      FillKeepsHistories(t, logs[0]);
      FillsKeepHistories(Filled(t, logs[0]).value, logs[1..]);
    }
  }

  lemma NothingTellsHistories(t: Tables)
    requires t.rows == [] && t.trades == []
    ensures RowsTellHistories(t)
  {
  }

  /** Shares an account has bought in an outcome less those it has sold, by the trades stored: the creator of a buy
      order and the filler of a sell order buy. */
  function NetShares(trades: seq<TradeRow>, key: Key): real {
    if trades == [] then 0.0
    else
      var trade := trades[|trades| - 1];
      NetShares(trades[..|trades| - 1], key)
      + (if trade.key.id != OutcomeId(key.marketId, key.outcome) then 0.0
         else (if trade.data.creator != key.account then 0.0
               else if trade.data.orderType == Buy then trade.amount else -trade.amount)
              + (if trade.data.filler != key.account then 0.0
                 else if trade.data.orderType == Buy then -trade.amount else trade.amount))
  }

  lemma {:induction false} NetSharesOfHistory(trades: seq<TradeRow>, key: Key)
    ensures NetDelta(History(trades, key)) == NetShares(trades, key)
    ensures AllParty(key.account, History(trades, key))
  {
    if trades != [] {
      var before, trade := trades[..|trades| - 1], trades[|trades| - 1];
      NetSharesOfHistory(before, key);
      var h, c, f := History(before, key), CreatorUpdate(trade), FillerUpdate(trade);
      NetDeltaAppend(h, c);
      NetDeltaAppend(h, f);
      NetDeltaAppend(h + [c], f);
      assert h + [] == h && h + [c] + [] == h + [c] && h + [] + [f] == h + [f];
    }
  }

  lemma NetDeltaAppend(updates: seq<Update>, u: Update)
    ensures NetDelta(updates + [u]) == NetDelta(updates) + u.delta
  {
    assert (updates + [u])[..|updates|] == updates;
  }

  /** From empty tables, every account's position is the net of the stored trades it is party to, and its total profit
      at any last price their gain marked to it. */
  lemma PositionsAreNetShares(t0: Tables, logs: seq<Log>, key: Key, lastPrice: real)
    requires t0.rows == [] && t0.trades == [] && AllFilled(t0, logs).Ok?
    requires key.marketId in AllFilled(t0, logs).value.markets
    ensures var t := AllFilled(t0, logs).value;
      var p := Latest(t.rows, key);
      && p.position == NetShares(t.trades, key)
      && TotalProfit(t.markets[key.marketId].bounds, p, lastPrice) == MarkedGains(History(t.trades, key), lastPrice)
  {
    hide AllFilled, TotalProfit, MarkedGains, History, NetShares;
    NothingTellsHistories(t0);
    FillsKeepHistories(t0, logs);
    var t := AllFilled(t0, logs).value;
    NetSharesOfHistory(t.trades, key);
    MarkToMarket(t.markets[key.marketId].bounds, key.account, History(t.trades, key), lastPrice);
  }

  // ---------------------------------------------------------------- trades paid in full

  /** Both sides pay, in shares or in tokens, for every share traded: the side that buys pays the price above the
      minimum for each share it does not send, the side that sells the price below the maximum. */
  predicate IsPaid(bounds: Market, trade: TradeRow) {
    var data, a := trade.data, trade.amount;
    var creatorPrice := if data.orderType == Buy then data.price - bounds.minPrice else bounds.maxPrice - data.price;
    var fillerPrice := if data.orderType == Buy then bounds.maxPrice - data.price else data.price - bounds.minPrice;
    && 0.0 < a && data.creator != data.filler
    && data.numCreatorTokens == (a - data.numCreatorShares) * creatorPrice
    && data.numFillerTokens == (a - data.numFillerShares) * fillerPrice
  }

  /** Both updates of such a trade are paid in full, each party's own. */
  lemma PaidUpdates(bounds: Market, trade: TradeRow)
    requires IsPaid(bounds, trade)
    ensures IsOwnTrade(trade.data.creator, CreatorUpdate(trade)) && IsOwnTrade(trade.data.filler, FillerUpdate(trade))
    ensures PaidInFull(bounds, trade.data.creator, CreatorUpdate(trade))
    ensures PaidInFull(bounds, trade.data.filler, FillerUpdate(trade))
  {
  }

  predicate AllPaid(bounds: Market, trades: seq<TradeRow>, key: Key) {
    forall i :: 0 <= i < |trades| && trades[i].key.id == OutcomeId(key.marketId, key.outcome)
           ==> IsPaid(bounds, trades[i])
  }

  lemma PaidHistoryAppend(market: Market, account: Address, updates: seq<Update>, u: Update)
    requires PaidHistory(market, account, updates) && PaidInFull(market, account, u)
    ensures PaidHistory(market, account, updates + [u])
  {
    hide PaidInFull;
    assert (updates + [u])[..|updates|] == updates;
  }

  lemma {:induction false} PaidTradesPaidHistory(bounds: Market, trades: seq<TradeRow>, key: Key)
    requires AllPaid(bounds, trades, key)
    ensures PaidHistory(bounds, key.account, History(trades, key))
  {
    hide PaidInFull, IsPaid, PaidHistory;
    if trades == [] {
      NothingToPay(bounds, key.account);
    } else {
      var before, trade := trades[..|trades| - 1], trades[|trades| - 1];
      PaidTradesPaidHistory(bounds, before, key);
      var h, c, f := History(before, key), CreatorUpdate(trade), FillerUpdate(trade);
      if trade.key.id == OutcomeId(key.marketId, key.outcome) {
        PaidUpdates(bounds, trade);
        PartiesDiffer(bounds, trade);
        if trade.data.creator == key.account { PaidHistoryAppend(bounds, key.account, h, c); }
        if trade.data.filler == key.account { PaidHistoryAppend(bounds, key.account, h, f); }
        assert h + [c] + [] == h + [c] && h + [] + [f] == h + [f] && h + [] + [] == h;
      }
    }
  }

  lemma NothingToPay(bounds: Market, account: Address)
    ensures PaidHistory(bounds, account, [])
  {
  }

  lemma PartiesDiffer(bounds: Market, trade: TradeRow)
    requires IsPaid(bounds, trade)
    ensures trade.data.creator != trade.data.filler
  {
  }

  /** From empty tables, when all stored trades of an outcome are paid, every account's frozen funds there exceed its
      unrealized cost by the display range times the shares it closed but did not send. */
  lemma FillsFreezeUnrealizedCost(t0: Tables, logs: seq<Log>, key: Key)
    requires t0.rows == [] && t0.trades == [] && AllFilled(t0, logs).Ok?
    requires key.marketId in AllFilled(t0, logs).value.markets
    requires var t := AllFilled(t0, logs).value; AllPaid(t.markets[key.marketId].bounds, t.trades, key)
    ensures var t := AllFilled(t0, logs).value;
      var bounds, p := t.markets[key.marketId].bounds, Latest(t.rows, key);
      p.frozenFunds - UnrealizedCost(bounds, p)
      == bounds.DisplayRange() * ClosedNotSent(bounds, key.account, History(t.trades, key))
  {
    hide AllFilled, UnrealizedCost, History, AllPaid, PaidHistory, ClosedNotSent, Market.DisplayRange;
    NothingTellsHistories(t0);
    FillsKeepHistories(t0, logs);
    var t := AllFilled(t0, logs).value;
    PaidTradesPaidHistory(t.markets[key.marketId].bounds, t.trades, key);
    FrozenFundsAreUnrealizedCost(t.markets[key.marketId].bounds, key.account, History(t.trades, key));
  }

  // ---------------------------------------------------------------- what a trade's volume is

  /** The volume of a paid trade is the cost of its complete sets, less, for every share one side sent beyond the
      other's, what that side would have paid for it in tokens. */
  lemma VolumeOfPaidTrade(bounds: Market, trade: TradeRow)
    requires IsPaid(bounds, trade)
    ensures var data := trade.data;
      var buyPrice, sellPrice := data.price - bounds.minPrice, bounds.maxPrice - data.price;
      var creatorPrice, fillerPrice := (if data.orderType == Buy then buyPrice else sellPrice),
                                       (if data.orderType == Buy then sellPrice else buyPrice);
      VolumeForTrade(bounds, data) == trade.amount * (bounds.maxPrice - bounds.minPrice)
        - (if data.numFillerShares <= data.numCreatorShares
           then (data.numCreatorShares - data.numFillerShares) * creatorPrice
           else (data.numFillerShares - data.numCreatorShares) * fillerPrice)
  {
    var data := trade.data;
    var c := if data.orderType == Buy then data.price - bounds.minPrice else bounds.maxPrice - data.price;
    var f := if data.orderType == Buy then bounds.maxPrice - data.price else data.price - bounds.minPrice;
    VolumeIdentity(trade.amount, data.numCreatorShares, data.numFillerShares, c, f, bounds.maxPrice - bounds.minPrice);
  }

  lemma VolumeIdentity(a: real, creator: real, filler: real, c: real, f: real, range: real)
    requires c + f == range
    ensures (a - creator) * c + (a - filler) * f + (if creator <= filler then creator else filler) * range
      == a * range - (if filler <= creator then (creator - filler) * c else (filler - creator) * f)
  {
    assert a * range == a * c + a * f;
    if filler <= creator {
      assert filler * range == filler * c + filler * f;
    } else {
      assert creator * range == creator * c + creator * f;
    }
  }

  /** So, with the price within the market's bounds, a paid trade counts at most the cost of its complete sets, and
      exactly that when both sides sent equally many shares or the side that sent more would have paid nothing. */
  lemma VolumeIsAtMostCost(bounds: Market, trade: TradeRow)
    requires IsPaid(bounds, trade) && bounds.HasPrice(trade.data.price)
    ensures var data := trade.data;
      var buyPrice, sellPrice := data.price - bounds.minPrice, bounds.maxPrice - data.price;
      var creatorPrice, fillerPrice := (if data.orderType == Buy then buyPrice else sellPrice),
                                       (if data.orderType == Buy then sellPrice else buyPrice);
      var cost := trade.amount * (bounds.maxPrice - bounds.minPrice);
      && VolumeForTrade(bounds, data) <= cost
      && (VolumeForTrade(bounds, data) == cost <==>
          data.numCreatorShares == data.numFillerShares
          || (data.numFillerShares < data.numCreatorShares && creatorPrice == 0.0)
          || (data.numCreatorShares < data.numFillerShares && fillerPrice == 0.0))
  {
    hide VolumeForTrade;
    VolumeOfPaidTrade(bounds, trade);
    var data := trade.data;
    var c := if data.orderType == Buy then data.price - bounds.minPrice else bounds.maxPrice - data.price;
    var f := if data.orderType == Buy then bounds.maxPrice - data.price else data.price - bounds.minPrice;
    ProductSign(data.numCreatorShares - data.numFillerShares, c);
    ProductSign(data.numFillerShares - data.numCreatorShares, f);
  }

  lemma ProductSign(x: real, y: real)
    requires 0.0 <= y
    ensures 0.0 <= x ==> 0.0 <= x * y && (x * y == 0.0 <==> x == 0.0 || y == 0.0)
  {
    if 0.0 < x && 0.0 < y { ScaleLt(0.0, x, y); }
  }

  // ---------------------------------------------------------------- what a row records

  /** An appended row records as opened the shares now held that were not held before on the same side. */
  lemma RowRecordsOpened(rows: seq<Row>, market: Market, key: Key, positionDelta: real, tradePrice: real,
      transactionHash: string, tradeData: Option<TradeData>)
    requires RowsAfter(rows, market, key, positionDelta, tradePrice, transactionHash, tradeData).Ok?
    requires positionDelta != 0.0
    ensures var after := RowsAfter(rows, market, key, positionDelta, tradePrice, transactionHash, tradeData).value;
      && |after| == |rows| + 1 && after[..|rows|] == rows
      && var row, was := after[|rows|], Latest(rows, key).position;
      && row.key == key && row.transactionHash == transactionHash && row.position.position == was + positionDelta
      && row.quantityOpened == Abs(row.position.position)
           - (if (0.0 < was && 0.0 < row.position.position) || (was < 0.0 && row.position.position < 0.0)
              then Min(Abs(was), Abs(row.position.position)) else 0.0)
  {
    hide Latest, GetNextAverage, GetTradeRealizedProfitDelta, GetTradeRealizedCostDelta, GetFrozenFundsAfterEvent;
    var prev := Latest(rows, key);
    StepByKind(prev.position, positionDelta, 0.0, 0.0);
  }
}
