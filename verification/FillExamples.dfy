/** Concrete fills for which the running figures and the undo go wrong. */
module FillExamples {
  import opened FinancialMath
  import opened Results
  import opened ProfitLoss
  import opened OrderFilled
  import opened FillLaws
  import opened RebuildVolume

  const YES: OutcomeId := OutcomeId("market", 1)

  /** One market without trades, and one order to buy three shares of its outcome. */
  function Start(orderState: OrderState): Tables {
    Tables(
      map["token" := YES],
      map["market" := MarketRow(Market(0.0, 1.0), 0.0, 0.0)],
      map[YES := OutcomeRow(0.0, 0.0)],
      map["order" := OrderRow("alice", Buy, 0.5, 3.0, 0.0, 1.5, orderState)],
      [], [])
  }

  /** Bob fills `amount` shares of the order in block 7, each side paying half a token a share. */
  function Fill(amount: real, transactionHash: string): Log {
    Log("token", "order", "bob", 7, transactionHash, amount, amount * 0.5, 0.0, amount * 0.5, 0.0)
  }

  /** A log whose token, market, outcome and order are stored is always processed. */
  lemma FilledSucceeds(t: Tables, log: Log)
    requires Refusal(t, log) == None && LoggedTrade(t, log).key.id in t.outcomes
    ensures Filled(t, log).Ok?
  {
    hide VolumeForTrade, Carry, GetFrozenFundsAfterEvent, RealizedProfitDelta, Latest;
    var trade := LoggedTrade(t, log);
    MatchingAppend(t.trades, trade, trade.key);
    FirstOfMatching(t.trades + [trade], trade.key);
  }

  lemma StartIsReady(orderState: OrderState, log: Log)
    requires log.shareToken == "token" && log.orderId == "order"
    ensures Refusal(Start(orderState), log) == None
        && LoggedTrade(Start(orderState), log).key == TradeKey(YES, "order", log.blockNumber)
    ensures Filled(Start(orderState), log).Ok?
  {
    FilledSucceeds(Start(orderState), log);
  }

  lemma StartAgrees(orderState: OrderState)
    ensures VolumesAgree(Start(orderState))
  {
  }

  /** A second log can follow the first, and stores its trade under the same key. */
  lemma SecondIsReady(t: Tables, first: Log, second: Log)
    requires Filled(t, first).Ok? && Refusal(t, second) == None
    requires LoggedTrade(t, second).key == LoggedTrade(t, first).key
    ensures var once := Filled(t, first).value;
      Filled(once, second).Ok? && LoggedTrade(once, second) == LoggedTrade(t, second)
  {
    FilledKeepsKeys(t, first);
    FilledOrders(t, first);
    FilledNeedsOutcome(t, first);
    hide Filled;
    FilledSucceeds(Filled(t, first).value, second);
  }

  /** Filling one share and then two of the same order in one block leaves volumes that are not the trades' totals. */
  lemma TwoFillsInOneBlock()
    ensures var first, second := Fill(1.0, "0xaa"), Fill(2.0, "0xbb");
      && AllFilled(Start(OPEN), [first, second]).Ok?
      && VolumesAgree(Filled(Start(OPEN), first).value)
      && !VolumesAgree(AllFilled(Start(OPEN), [first, second]).value)
  {
    var t, first, second := Start(OPEN), Fill(1.0, "0xaa"), Fill(2.0, "0xbb");
    StartIsReady(OPEN, first);
    StartIsReady(OPEN, second);
    StartAgrees(OPEN);
    SecondIsReady(t, first, second);
    hide Filled, VolumesAgree;
    AllOfTwo(t, first, second);
    SecondFillInBlockBreaksAgreement(t, first, second);
  }

  lemma AllOfTwo(t: Tables, first: Log, second: Log)
    requires Filled(t, first).Ok? && Filled(Filled(t, first).value, second).Ok?
    ensures AllFilled(t, [first, second]) == Filled(Filled(t, first).value, second)
  {
    hide Filled;
    var once := Filled(t, first).value;
    assert [first, second][1..] == [second] && [second][1..] == [];
    assert AllFilled(once, [second]) == Filled(once, second);
  }

  /** Two fills of one order in one block that weigh the same keep the volumes; removing one of them deletes both trades
      and leaves the other's volume behind. */
  lemma OneRemovalTakesBothTrades(t: Tables, first: Log, second: Log)
    requires VolumesAgree(t) && Filled(t, first).Ok? && Filled(Filled(t, first).value, second).Ok?
    requires t.trades == [] && Refusal(t, second) == None && second.amount != 0.0
    requires LoggedTrade(t, second) == LoggedTrade(t, first)
    ensures var twice := Filled(Filled(t, first).value, second).value;
      && VolumesAgree(twice)
      && FillRemoved(twice, second).Ok? && !VolumesAgree(FillRemoved(twice, second).value)
  {
    hide Filled, FillRemoved, VolumesAgree, Matching, FirstTrade, Weight, VolumeForTrade, RowsAfter;
    StoredTwice(t, first, second);
    var once, trade := Filled(t, first).value, LoggedTrade(t, first);
    var twice := Filled(once, second).value;
    hide Refusal, TradeOf;
    FirstOfMatching(twice.trades, trade.key);
    RemovalSucceeds(twice, second);
    FillKeepsAgreement(t, first);
    FillKeepsAgreement(once, second);
    RemovalKeepsAgreement(twice, second);
    assert Matching(twice.trades, trade.key)[1..] == [trade];
    ShareVolumeOfOne(trade);
  }

  lemma ShareVolumeOfOne(trade: TradeRow)
    ensures Total(MarketShareVolume(trade.key.id.marketId), [trade]) == trade.amount
  {
    assert [trade][1..] == [];
  }

  /** After two such fills their equal trades are the only ones, and either can be removed. */
  lemma StoredTwice(t: Tables, first: Log, second: Log)
    requires Filled(t, first).Ok? && Filled(Filled(t, first).value, second).Ok?
    requires t.trades == [] && Refusal(t, second) == None && LoggedTrade(t, second) == LoggedTrade(t, first)
    ensures Refusal(t, first) == None
    ensures var once, trade := Filled(t, first).value, LoggedTrade(t, first);
      var twice := Filled(once, second).value;
      && Refusal(once, second) == None == Refusal(twice, second) && trade.amount == second.amount
      && LoggedTrade(once, second) == trade == LoggedTrade(twice, second) && trade.key.id in twice.outcomes
      && Matching(t.trades, trade.key) == [] && Matching(once.trades, trade.key) == [trade]
      && Matching(twice.trades, trade.key) == [trade] + [trade]
  {
    SecondIsReady(t, first, second);
    var once, trade := Filled(t, first).value, LoggedTrade(t, first);
    FilledKeepsKeys(t, first);
    FilledKeepsKeys(once, second);
    FilledNeedsOutcome(once, second);
    AmountLogged(t, second);
    StillLogged(once, second);
    hide Filled, Refusal, TradeOf;
    MatchingAppend([], trade, trade.key);
    MatchingAppend([] + [trade], trade, trade.key);
  }

  lemma StillLogged(t: Tables, log: Log)
    requires Filled(t, log).Ok?
    ensures Refusal(Filled(t, log).value, log) == None && LoggedTrade(Filled(t, log).value, log) == LoggedTrade(t, log)
  {
  }

  lemma AmountLogged(t: Tables, log: Log)
    requires Refusal(t, log) == None
    ensures LoggedTrade(t, log).amount == log.amount
  {
  }

  /** One share filled twice in one block, and one of the two fills removed. */
  lemma OneOfTwoRemoved()
    ensures var first, second := Fill(1.0, "0xaa"), Fill(1.0, "0xbb");
      && AllFilled(Start(OPEN), [first, second]).Ok?
      && VolumesAgree(AllFilled(Start(OPEN), [first, second]).value)
      && FillRemoved(AllFilled(Start(OPEN), [first, second]).value, second).Ok?
      && !VolumesAgree(FillRemoved(AllFilled(Start(OPEN), [first, second]).value, second).value)
  {
    var t, first, second := Start(OPEN), Fill(1.0, "0xaa"), Fill(1.0, "0xbb");
    StartIsReady(OPEN, first);
    StartIsReady(OPEN, second);
    StartAgrees(OPEN);
    assert LoggedTrade(t, second) == LoggedTrade(t, first) && t.trades == [];
    hide Filled, FillRemoved, VolumesAgree, Start;
    SecondIsReady(t, first, second);
    AllOfTwo(t, first, second);
    OneRemovalTakesBothTrades(t, first, second);
  }

  /** Undoing a fill of a canceled order restores everything but its state: the order is left open. */
  lemma UndoneOrderIsOpen()
    ensures var t, fill := Start(CANCELED), Fill(1.0, "0xaa");
      && AllFilled(t, [fill]).Ok?
      && AllRemoved(AllFilled(t, [fill]).value, [fill]) == Ok(Start(OPEN)) != Ok(t)
  {
    hide AllRemoved, Filled, TradeOf, LoggedTrades, FreshLogs, Restated, Transactions, OrderIds;
    var t, fill := Start(CANCELED), Fill(1.0, "0xaa");
    StartIsReady(CANCELED, fill);
    OneFill(t, fill);
    UndoFills(t, [fill], [fill]);
    OneOrderOpens(AllRemoved(AllFilled(t, [fill]).value, [fill]).value, fill);
  }

  /** One log, at a market without trades, is a run that can be undone. */
  lemma OneFill(t: Tables, fill: Log)
    requires t.trades == [] && Filled(t, fill).Ok?
    ensures AllFilled(t, [fill]).Ok? && FreshLogs(t, [], [fill])
  {
    assert Refusal(t, fill) == None;
    hide Filled, Refusal, TradeOf;
    assert [fill][1..] == [];
    assert AllFilled(t, [fill]) == AllFilled(Filled(t, fill).value, []);
    assert LoggedTrades(t, [fill]) == [LoggedTrade(t, fill)];
  }

  lemma OneOrderOpens(t: Tables, fill: Log)
    requires fill.orderId == "order" && t.(orders := Start(CANCELED).orders) == Start(CANCELED)
    requires t.orders.Keys == Start(CANCELED).orders.Keys
    requires forall o <- Start(CANCELED).orders ::
      t.orders[o] == Restated(Start(CANCELED).orders[o], o in OrderIds([fill]))
    ensures t == Start(OPEN) != Start(CANCELED)
  {
    assert [fill][0] == fill;
    assert "order" in OrderIds([fill]);
    assert "order" in Start(CANCELED).orders;
    assert t.orders["order"] == Start(OPEN).orders["order"] != Start(CANCELED).orders["order"];
    assert t.orders == Start(OPEN).orders;
  }
}
