/** Running volumes over whole runs of fills and removals, against a rebuild from scratch. */
module VolumeRuns {
  import opened FinancialMath
  import opened Results
  import opened ProfitLoss
  import opened OrderFilled
  import opened FillLaws
  import opened RebuildVolume

  // ---------------------------------------------------------------- runs

  datatype Event = Fill(log: Log) | Removal(log: Log)

  function Processed(t: Tables, e: Event): Result<Tables> {
    match e
    case Fill(log) => Filled(t, log)
    case Removal(log) => FillRemoved(t, log)
  }

  /** A refused log changes nothing. */
  function Next(t: Tables, e: Event): Tables {
    match Processed(t, e)
    case Ok(after) => after
    case Err(_) => t
  }

  function AfterEvents(t: Tables, events: seq<Event>): Tables
    decreases |events|
  {
    if events == [] then t else AfterEvents(Next(t, events[0]), events[1..])
  }

  /** One fill of an order in a block: a fill finds no trade stored under its key, a removal at most one. */
  predicate IsSingle(t: Tables, e: Event) {
    Refusal(t, e.log) == None ==>
      |Matching(t.trades, LoggedTrade(t, e.log).key)| <= if e.Fill? then 0 else 1
  }

  predicate AllSingle(t: Tables, events: seq<Event>)
    decreases |events|
  {
    events == [] || (IsSingle(t, events[0]) && AllSingle(Next(t, events[0]), events[1..]))
  }

  // ---------------------------------------------------------------- agreement

  lemma NextKeepsAgreement(t: Tables, e: Event)
    requires VolumesAgree(t) && IsSingle(t, e)
    ensures VolumesAgree(Next(t, e))
  {
    hide VolumesAgree, WeighSame, Matching;
    if Processed(t, e).Ok? {
      assert Refusal(t, e.log) == None;
      hide Filled, FillRemoved, Refusal, TradeOf;
      var trade := LoggedTrade(t, e.log);
      match e
      case Fill(log) =>
        FillKeepsAgreement(t, log);
        assert [] + [trade] == [trade];
        WeighsItself(trade, t.markets[trade.key.id.marketId].bounds);
      case Removal(log) =>
        RemovalKeepsAgreement(t, log);
        NothingWeighsNothing();
        assert Matching(t.trades, trade.key)[1..] == [];
    }
  }

  lemma WeighsItself(trade: TradeRow, bounds: Market)
    ensures WeighSame(trade, trade, bounds)
  {
  }

  lemma NothingWeighsNothing()
    ensures forall measure :: Total(measure, []) == 0.0
  {
  }

  /** Over every run of fills and removals with one fill of an order in a block at a time, in any interleaving, the
      stored volumes stay what the trades table adds up to. */
  lemma {:induction false} RunKeepsAgreement(t: Tables, events: seq<Event>)
    requires VolumesAgree(t) && AllSingle(t, events)
    ensures VolumesAgree(AfterEvents(t, events))
    decreases |events|
  {
    hide VolumesAgree, IsSingle, Next;
    if events != [] {
      NextKeepsAgreement(t, events[0]);
      RunKeepsAgreement(Next(t, events[0]), events[1..]);
    }
  }

  /** The same for fills alone, by a condition on the logs before the run. */
  lemma FreshFillsKeepAgreement(t: Tables, logs: seq<Log>)
    requires VolumesAgree(t) && FreshLogs(t, [], logs) && AllFilled(t, logs).Ok?
    ensures VolumesAgree(AllFilled(t, logs).value)
  {
    hide AllFilled, FreshLogs, Discrepancy, LoggedTrades, OrderIds, Transactions;
    HoldsAtStart(t);
    FillsHold(t, t, {}, [], {}, logs);
    InStepAgrees(t, AllFilled(t, logs).value, {} + OrderIds(logs));
  }

  lemma InStepAgrees(t0: Tables, t: Tables, touched: set<OrderId>)
    requires VolumesAgree(t0) && InStep(t0, t, touched)
    ensures VolumesAgree(t)
  {
    hide Discrepancy;
    forall measure | Measured(t, measure) && IsVolume(measure)
      ensures Discrepancy(t, measure) == 0.0
    {
      MeasuredStays(t, t0, measure);
    }
  }

  // ---------------------------------------------------------------- every running figure

  /** Besides, a removal takes back the very fill that is stored, or finds none. */
  predicate IsOwn(t: Tables, e: Event) {
    && IsSingle(t, e)
    && (e.Removal? && Refusal(t, e.log) == None ==>
          forall trade :: trade in Matching(t.trades, LoggedTrade(t, e.log).key) ==> trade == LoggedTrade(t, e.log))
  }

  predicate AllOwn(t: Tables, events: seq<Event>)
    decreases |events|
  {
    events == [] || (IsOwn(t, events[0]) && AllOwn(Next(t, events[0]), events[1..]))
  }

  lemma TotalOfOne(measure: Measure, trade: TradeRow)
    ensures Total(measure, [trade]) == Weight(measure, trade) && Total(measure, []) == 0.0
  {
    assert [trade][1..] == [];
  }

  lemma NextKeepsFigure(t: Tables, e: Event, measure: Measure)
    requires Measured(t, measure) && IsOwn(t, e)
    ensures Measured(Next(t, e), measure) && Discrepancy(Next(t, e), measure) == Discrepancy(t, measure)
  {
    hide Discrepancy, Measured, Matching, Weight, Total;
    if Processed(t, e).Ok? {
      assert Refusal(t, e.log) == None;
      hide Filled, FillRemoved, Refusal, TradeOf;
      var trade := LoggedTrade(t, e.log);
      var matching := Matching(t.trades, trade.key);
      TotalOfOne(measure, trade);
      match e
      case Fill(log) =>
        assert [] + [trade] == [trade];
        if IsVolume(measure) { FillMovesVolume(t, log, measure); } else { FillMovesOrder(t, log, measure); }
      case Removal(log) =>
        RemovalFindsOne(t, log);
        assert matching[0] in matching;
        assert matching == [trade] && matching[1..] == [];
        if IsVolume(measure) { RemovalMovesVolume(t, log, measure); } else { RemovalMovesOrder(t, log, measure); }
    }
  }

  lemma RemovalFindsOne(t: Tables, log: Log)
    requires FillRemoved(t, log).Ok?
    ensures Refusal(t, log) == None && Matching(t.trades, LoggedTrade(t, log).key) != []
  {
    FirstOfMatching(t.trades, LoggedTrade(t, log).key);
  }

  /** Over every such run every running figure, of volumes and of orders' remaining amounts and escrow, moves with the
      trades table: what it is off by stays what it was. */
  lemma {:induction false} RunKeepsFigures(t: Tables, events: seq<Event>, measure: Measure)
    requires Measured(t, measure) && AllOwn(t, events)
    ensures var after := AfterEvents(t, events);
      Measured(after, measure) && Discrepancy(after, measure) == Discrepancy(t, measure)
    decreases |events|
  {
    hide Measured, Discrepancy, IsOwn, Next;
    if events != [] {
      NextKeepsFigure(t, events[0], measure);
      RunKeepsFigures(Next(t, events[0]), events[1..], measure);
    }
  }

  /** An order's remaining amount after such a run from no trades is its first amount less what its stored trades
      fill. */
  lemma OrderIsWhatTradesLeave(t0: Tables, events: seq<Event>, orderId: OrderId)
    requires t0.trades == [] && orderId in t0.orders && AllOwn(t0, events)
    ensures var t := AfterEvents(t0, events);
      && orderId in t.orders
      && t.orders[orderId].fullPrecisionAmount
         == t0.orders[orderId].fullPrecisionAmount - FilledAmount(t.trades, orderId)
  {
    hide AfterEvents, AllOwn;
    RunKeepsFigures(t0, events, OrderAmount(orderId));
    TotalIsFilledAmount(AfterEvents(t0, events).trades, orderId);
  }

  /** After a fill or its removal the order is filled exactly when its stored trades use up its first amount, and open
      otherwise. */
  lemma OrderStateTellsTrades(t0: Tables, events: seq<Event>, e: Event)
    requires t0.trades == [] && AllOwn(t0, events) && IsOwn(AfterEvents(t0, events), e)
    requires Processed(AfterEvents(t0, events), e).Ok? && e.log.orderId in t0.orders
    ensures var t := Next(AfterEvents(t0, events), e);
      && e.log.orderId in t.orders
      && t.orders[e.log.orderId].orderState ==
         if FilledAmount(t.trades, e.log.orderId) == t0.orders[e.log.orderId].fullPrecisionAmount then FILLED else OPEN
  {
    hide AfterEvents, AllOwn, IsOwn, Discrepancy, Total;
    var measure := OrderAmount(e.log.orderId);
    RunKeepsFigures(t0, events, measure);
    var before := AfterEvents(t0, events);
    NextKeepsFigure(before, e, measure);
    TotalIsFilledAmount(Next(before, e).trades, e.log.orderId);
    NoDiscrepancy(t0, Next(before, e), e.log.orderId);
    StateFollowsAmount(before, e);
  }

  lemma NoDiscrepancy(t0: Tables, t: Tables, orderId: OrderId)
    requires t0.trades == [] && orderId in t0.orders && Measured(t, OrderAmount(orderId))
    requires Discrepancy(t, OrderAmount(orderId)) == Discrepancy(t0, OrderAmount(orderId))
    ensures orderId in t.orders
    ensures t.orders[orderId].fullPrecisionAmount - Total(OrderAmount(orderId), t.trades)
         == t0.orders[orderId].fullPrecisionAmount
  {
  }

  lemma StateFollowsAmount(t: Tables, e: Event)
    requires Processed(t, e).Ok?
    ensures var after := Next(t, e);
      && e.log.orderId in after.orders
      && after.orders[e.log.orderId].orderState ==
         if after.orders[e.log.orderId].fullPrecisionAmount == 0.0 then FILLED else OPEN
  {
    hide VolumetricsUpdated, ProfitLossUpdated;
  }

  function FilledAmount(trades: seq<TradeRow>, orderId: OrderId): real {
    if trades == [] then 0.0
    else (if trades[0].key.orderId == orderId then trades[0].amount else 0.0) + FilledAmount(trades[1..], orderId)
  }

  lemma {:induction false} TotalIsFilledAmount(trades: seq<TradeRow>, orderId: OrderId)
    ensures Total(OrderAmount(orderId), trades) == -FilledAmount(trades, orderId)
  {
    if trades != [] {
      TotalIsFilledAmount(trades[1..], orderId);
    }
  }

  // ---------------------------------------------------------------- from the beginning

  /** No trades yet, and every volume zero. */
  predicate NothingTraded(t: Tables) {
    && t.trades == []
    && (forall m <- t.markets :: t.markets[m].volume == 0.0 == t.markets[m].shareVolume)
    && (forall o <- t.outcomes :: t.outcomes[o].volume == 0.0 == t.outcomes[o].shareVolume)
  }

  lemma NothingTradedAgrees(t: Tables)
    requires NothingTraded(t)
    ensures VolumesAgree(t)
  {
  }

  /** Same markets, bounds and outcomes. */
  ghost predicate SameListing(t0: Tables, t: Tables) {
    && t.markets.Keys == t0.markets.Keys && t.outcomes.Keys == t0.outcomes.Keys
    && forall m <- t0.markets :: t.markets[m].bounds == t0.markets[m].bounds
  }

  /** Every stored trade is of a listed market and outcome. */
  predicate TradesListed(t: Tables) {
    forall i :: 0 <= i < |t.trades| ==> t.trades[i].key.id.marketId in t.markets && t.trades[i].key.id in t.outcomes
  }

  lemma {:induction false} WithoutTradesSelects(trades: seq<TradeRow>, key: TradeKey)
    ensures forall trade :: trade in WithoutTrades(trades, key) <==> trade in trades && trade.key != key
  {
    if trades != [] {
      WithoutTradesSelects(trades[1..], key);
      assert trades == [trades[0]] + trades[1..];
    }
  }

  lemma NextKeepsListing(t: Tables, e: Event)
    requires TradesListed(t)
    ensures SameListing(t, Next(t, e)) && TradesListed(Next(t, e))
  {
    if Processed(t, e).Ok? {
      var after := Next(t, e);
      match e
      case Fill(log) =>
        FilledKeepsKeys(t, log);
        FilledNeedsOutcome(t, log);
        assert LoggedTrade(t, log).key.id.marketId in t.markets;
      case Removal(log) =>
        RemovalKeepsKeys(t, log);
        WithoutTradesSelects(t.trades, LoggedTrade(t, log).key);
        hide FillRemoved, Filled, Refusal, WithoutTrades;
        assert forall i :: 0 <= i < |after.trades| ==> after.trades[i] in t.trades;
    }
  }

  lemma {:induction false} RunKeepsListing(t: Tables, events: seq<Event>)
    requires TradesListed(t)
    ensures SameListing(t, AfterEvents(t, events)) && TradesListed(AfterEvents(t, events))
    decreases |events|
  {
    hide Next, TradesListed;
    if events != [] {
      NextKeepsListing(t, events[0]);
      RunKeepsListing(Next(t, events[0]), events[1..]);
    }
  }

  /** Built fill by fill from zero, with removals in between, the volumes are exactly what a rebuild from scratch finds;
      and the rebuild does not fail. */
  lemma IncrementalIsRebuilt(t0: Tables, events: seq<Event>, id: OutcomeId)
    requires NothingTraded(t0) && AllSingle(t0, events) && id.marketId in t0.markets
    ensures var t := AfterEvents(t0, events);
      && (forall i :: 0 <= i < |t.trades| ==> t.trades[i].key.id.marketId in BoundsOf(t))
      && id.marketId in t.markets && (id in t0.outcomes ==> id in t.outcomes)
      && forall r :: Computed(BoundsOf(t), t.trades, r) ==>
          && t.markets[id.marketId].volume == ValueOr(r.volumeByMarketId, id.marketId)
          && (id in t0.outcomes ==> t.outcomes[id].volume == ValueOr(OutcomesOr(r, id.marketId), id.outcome))
  {
    hide AfterEvents, AllSingle, Computed;
    NothingTradedAgrees(t0);
    RunKeepsAgreement(t0, events);
    RunKeepsListing(t0, events);
    var t := AfterEvents(t0, events);
    hide VolumesAgree;
    forall r | Computed(BoundsOf(t), t.trades, r)
      ensures t.markets[id.marketId].volume == ValueOr(r.volumeByMarketId, id.marketId)
      ensures id in t0.outcomes ==> t.outcomes[id].volume == ValueOr(OutcomesOr(r, id.marketId), id.outcome)
    {
      RebuildFindsStoredVolumes(t, r, id);
    }
  }

  /** Rebuilds the volumes of tables that a run of fills and removals has built up from zero. */
  method RebuildAfterRun(t: Tables, ghost t0: Tables, ghost events: seq<Event>) returns (r: RebuildVolumeResult)
    requires NothingTraded(t0) && AllSingle(t0, events) && t == AfterEvents(t0, events)
    ensures forall m :: m in t.markets ==> t.markets[m].volume == ValueOr(r.volumeByMarketId, m)
    ensures forall id :: id in t.outcomes && id.marketId in t.markets ==>
      t.outcomes[id].volume == ValueOr(OutcomesOr(r, id.marketId), id.outcome)
  {
    hide AfterEvents, AllSingle, Computed, NothingTraded;
    RunKeepsListing(t0, events) by { NothingIsListed(t0); }
    var result := CalculateVolumeForAllMarkets(BoundsOf(t), t.trades);
    r := result.value;
    forall m | m in t.markets
      ensures t.markets[m].volume == ValueOr(r.volumeByMarketId, m)
    {
      IncrementalIsRebuilt(t0, events, OutcomeId(m, 0));
    }
    forall id | id in t.outcomes && id.marketId in t.markets
      ensures t.outcomes[id].volume == ValueOr(OutcomesOr(r, id.marketId), id.outcome)
    {
      IncrementalIsRebuilt(t0, events, id);
    }
  }

  lemma NothingIsListed(t: Tables)
    requires NothingTraded(t)
    ensures TradesListed(t)
  {
  }

  /** And each market's volume is the sum of its outcomes' volumes. */
  lemma MarketIsSumOfOutcomesAfterRun(t0: Tables, events: seq<Event>, m: Address, numOutcomes: nat)
    requires NothingTraded(t0) && AllSingle(t0, events) && m in t0.markets
    requires forall o: nat :: OutcomeId(m, o) in t0.outcomes <==> o < numOutcomes
    ensures var t := AfterEvents(t0, events);
      && m in t.markets && (forall o :: 0 <= o < numOutcomes ==> OutcomeId(m, o) in t.outcomes)
      && t.markets[m].volume == SumOfOutcomes(t, m, numOutcomes)
  {
    hide AfterEvents, AllSingle;
    NothingTradedAgrees(t0);
    RunKeepsAgreement(t0, events);
    RunKeepsListing(t0, events);
    var t := AfterEvents(t0, events);
    hide VolumesAgree;
    forall i | 0 <= i < |t.trades| && t.trades[i].key.id.marketId == m
      ensures t.trades[i].key.id.outcome < numOutcomes
    {
      assert t.trades[i].key.id == OutcomeId(m, t.trades[i].key.id.outcome);
    }
    MarketVolumeIsSumOfOutcomes(t, m, numOutcomes);
  }
}
