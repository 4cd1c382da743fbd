/** Computing every market's and outcome's volume from scratch, and its agreement with the running volumes. */
module RebuildVolume {
  import opened FinancialMath
  import opened Results
  import opened ProfitLoss
  import opened OrderFilled
  import opened FillLaws

  datatype RebuildVolumeResult = RebuildVolumeResult(
    volumeByMarketId: map<Address, real>,
    volumeByOutcomeByMarketId: map<Address, map<nat, real>>)

  function MarketTotal(markets: map<Address, Market>, trades: seq<TradeRow>, marketId: Address): real
    requires marketId in markets
  {
    Total(MarketVolume(marketId, markets[marketId]), trades)
  }

  function OutcomeTotal(markets: map<Address, Market>, trades: seq<TradeRow>, id: OutcomeId): real
    requires id.marketId in markets
  {
    Total(OutcomeVolume(id, markets[id.marketId]), trades)
  }

  predicate Trades(trades: seq<TradeRow>, marketId: Address) {
    exists i :: 0 <= i < |trades| && trades[i].key.id.marketId == marketId
  }

  predicate TradesIn(trades: seq<TradeRow>, id: OutcomeId) {
    exists i :: 0 <= i < |trades| && trades[i].key.id == id
  }

  /** The maps hold exactly the totals of `trades`, for exactly the markets and outcomes traded. */
  ghost predicate Computed(markets: map<Address, Market>, trades: seq<TradeRow>, r: RebuildVolumeResult) {
    && (forall m :: m in r.volumeByMarketId <==> Trades(trades, m))
    && r.volumeByOutcomeByMarketId.Keys == r.volumeByMarketId.Keys
    && (forall m <- r.volumeByMarketId :: m in markets && r.volumeByMarketId[m] == MarketTotal(markets, trades, m))
    && (forall m <- r.volumeByOutcomeByMarketId, o ::
        o in r.volumeByOutcomeByMarketId[m] <==> TradesIn(trades, OutcomeId(m, o)))
    && (forall m <- r.volumeByOutcomeByMarketId, o <- r.volumeByOutcomeByMarketId[m] ::
          m in markets && r.volumeByOutcomeByMarketId[m][o] == OutcomeTotal(markets, trades, OutcomeId(m, o)))
  }

  lemma MarketTotalAppend(markets: map<Address, Market>, trades: seq<TradeRow>, trade: TradeRow, m: Address)
    requires m in markets
    ensures MarketTotal(markets, trades + [trade], m) == MarketTotal(markets, trades, m)
      + if trade.key.id.marketId == m then VolumeForTrade(markets[m], trade.data) else 0.0
    ensures Trades(trades + [trade], m) <==> Trades(trades, m) || trade.key.id.marketId == m
  {
    TotalAppend(MarketVolume(m, markets[m]), trades, trade);
    var all := trades + [trade];
    assert all[|trades|] == trade;
    assert forall i :: 0 <= i < |trades| ==> all[i] == trades[i];
  }

  lemma OutcomeTotalAppend(markets: map<Address, Market>, trades: seq<TradeRow>, trade: TradeRow, id: OutcomeId)
    requires id.marketId in markets
    ensures OutcomeTotal(markets, trades + [trade], id) == OutcomeTotal(markets, trades, id)
      + if trade.key.id == id then VolumeForTrade(markets[id.marketId], trade.data) else 0.0
    ensures TradesIn(trades + [trade], id) <==> TradesIn(trades, id) || trade.key.id == id
  {
    TotalAppend(OutcomeVolume(id, markets[id.marketId]), trades, trade);
    var all := trades + [trade];
    assert all[|trades|] == trade;
    assert forall i :: 0 <= i < |trades| ==> all[i] == trades[i];
  }

  lemma {:induction false} UntradedTotals(markets: map<Address, Market>, trades: seq<TradeRow>, id: OutcomeId)
    requires id.marketId in markets
    ensures !Trades(trades, id.marketId) ==> MarketTotal(markets, trades, id.marketId) == 0.0
    ensures !TradesIn(trades, id) ==> OutcomeTotal(markets, trades, id) == 0.0
  {
    if trades != [] {
      UntradedTotals(markets, trades[1..], id);
      assert trades[0] == trades[0];
      assert forall i :: 0 <= i < |trades[1..]| ==> trades[1..][i] == trades[i + 1];
    }
  }

  function ValueOr<K>(volumes: map<K, real>, key: K): real {
    if key in volumes then volumes[key] else 0.0
  }

  function OutcomesOr(r: RebuildVolumeResult, m: Address): map<nat, real> {
    if m in r.volumeByOutcomeByMarketId then r.volumeByOutcomeByMarketId[m] else map[]
  }

  /** Counting in one more trade. */
  function Counted(r: RebuildVolumeResult, id: OutcomeId, volume: real): RebuildVolumeResult {
    var m, byOutcome := id.marketId, OutcomesOr(r, id.marketId);
    RebuildVolumeResult(
      r.volumeByMarketId[m := ValueOr(r.volumeByMarketId, m) + volume],
      r.volumeByOutcomeByMarketId[m := byOutcome[id.outcome := ValueOr(byOutcome, id.outcome) + volume]])
  }

  /** `Computed`, read as a lookup: every market's and outcome's entry, or its absence, is its total. */
  lemma ComputedLookup(markets: map<Address, Market>, trades: seq<TradeRow>, r: RebuildVolumeResult, id: OutcomeId)
    requires Computed(markets, trades, r) && id.marketId in markets
    ensures ValueOr(r.volumeByMarketId, id.marketId) == MarketTotal(markets, trades, id.marketId)
    ensures ValueOr(OutcomesOr(r, id.marketId), id.outcome) == OutcomeTotal(markets, trades, id)
  {
    hide MarketTotal, OutcomeTotal;
    UntradedTotals(markets, trades, id);
    assert OutcomeId(id.marketId, id.outcome) == id;
    if id.marketId !in r.volumeByMarketId {
      NoOutcomeTrades(trades, id);
    }
  }

  lemma CountedKeepsComputed(markets: map<Address, Market>, trades: seq<TradeRow>, trade: TradeRow,
      r: RebuildVolumeResult)
    requires Computed(markets, trades, r) && trade.key.id.marketId in markets
    ensures Computed(markets, trades + [trade],
                     Counted(r, trade.key.id, VolumeForTrade(markets[trade.key.id.marketId], trade.data)))
  {
    hide MarketTotal, OutcomeTotal, Trades, TradesIn, VolumeForTrade;
    var id, all := trade.key.id, trades + [trade];
    var volume := VolumeForTrade(markets[id.marketId], trade.data);
    var after := Counted(r, id, volume);
    ComputedLookup(markets, trades, r, id);
    MarketTotalAppend(markets, trades, trade, id.marketId);
    forall m
      ensures m in after.volumeByMarketId <==> Trades(all, m)
      ensures m in after.volumeByMarketId ==> m in markets && after.volumeByMarketId[m] == MarketTotal(markets, all, m)
    {
      TradesAppend(trades, trade, m);
      if m in markets { MarketTotalAppend(markets, trades, trade, m); }
    }
    forall m, o | m in after.volumeByOutcomeByMarketId
      ensures o in after.volumeByOutcomeByMarketId[m] <==> TradesIn(all, OutcomeId(m, o))
      ensures o in after.volumeByOutcomeByMarketId[m] ==>
        m in markets && after.volumeByOutcomeByMarketId[m][o] == OutcomeTotal(markets, all, OutcomeId(m, o))
    {
      assert m in markets;
      OutcomeTotalAppend(markets, trades, trade, OutcomeId(m, o));
      assert id == OutcomeId(id.marketId, id.outcome);
      if m !in r.volumeByMarketId { NoOutcomeTrades(trades, OutcomeId(m, o)); }
    }
  }

  lemma TradesAppend(trades: seq<TradeRow>, trade: TradeRow, m: Address)
    ensures Trades(trades + [trade], m) <==> Trades(trades, m) || trade.key.id.marketId == m
  {
    var all := trades + [trade];
    assert all[|trades|] == trade;
    assert forall i :: 0 <= i < |trades| ==> all[i] == trades[i];
  }

  lemma NoOutcomeTrades(trades: seq<TradeRow>, id: OutcomeId)
    requires !Trades(trades, id.marketId)
    ensures !TradesIn(trades, id)
  {
  }

  lemma NothingComputed(markets: map<Address, Market>)
    ensures Computed(markets, [], RebuildVolumeResult(map[], map[]))
  {
  }

  /** Adds up all trades from scratch; fails on a trade whose market is unknown. */
  method CalculateVolumeForAllMarkets(markets: map<Address, Market>,
      trades: seq<TradeRow>) returns (r: Result<RebuildVolumeResult>)
    ensures r.Err? <==> exists i :: 0 <= i < |trades| && trades[i].key.id.marketId !in markets
    ensures r.Ok? ==> Computed(markets, trades, r.value)
  {
    hide VolumeForTrade, Computed;
    var volumeByMarketId: map<Address, real> := map[];
    var volumeByOutcomeByMarketId: map<Address, map<nat, real>> := map[];
    var i := 0;
    NothingComputed(markets);
    while i < |trades|
      invariant 0 <= i <= |trades|
      invariant forall j :: 0 <= j < i ==> trades[j].key.id.marketId in markets
      invariant Computed(markets, trades[..i], RebuildVolumeResult(volumeByMarketId, volumeByOutcomeByMarketId))
    {
      var tradesRow := trades[i];
      var m, o := tradesRow.key.id.marketId, tradesRow.key.id.outcome;
      if m !in markets { return Err("marketId not found"); }
      var volumeFromThisTrade := VolumeForTrade(markets[m], tradesRow.data);
      ghost var before := RebuildVolumeResult(volumeByMarketId, volumeByOutcomeByMarketId);
      CountedKeepsComputed(markets, trades[..i], tradesRow, before);
      assert trades[..i + 1] == trades[..i] + [tradesRow];

      if m !in volumeByMarketId {
        volumeByMarketId := volumeByMarketId[m := volumeFromThisTrade];
      } else {
        volumeByMarketId := volumeByMarketId[m := volumeByMarketId[m] + volumeFromThisTrade];
      }

      var volumeByOutcome := if m in volumeByOutcomeByMarketId then volumeByOutcomeByMarketId[m] else map[];
      if o !in volumeByOutcome {
        volumeByOutcome := volumeByOutcome[o := volumeFromThisTrade];
      } else {
        volumeByOutcome := volumeByOutcome[o := volumeByOutcome[o] + volumeFromThisTrade];
      }
      volumeByOutcomeByMarketId := volumeByOutcomeByMarketId[m := volumeByOutcome];
      assert RebuildVolumeResult(volumeByMarketId, volumeByOutcomeByMarketId)
          == Counted(before, tradesRow.key.id, volumeFromThisTrade);
      i := i + 1;
    }
    assert trades[..i] == trades;
    r := Ok(RebuildVolumeResult(volumeByMarketId, volumeByOutcomeByMarketId));
  }

  // ---------------------------------------------------------------- agreement with the running volumes

  /** The price bounds stored in the markets table. */
  function BoundsOf(t: Tables): map<Address, Market> {
    map m | m in t.markets :: t.markets[m].bounds
  }

  /** Every stored volume is what the trades table adds up to. */
  ghost predicate VolumesAgree(t: Tables) {
    forall measure :: Measured(t, measure) && IsVolume(measure) ==> Discrepancy(t, measure) == 0.0
  }

  /** Two trades weigh the same in every volume. */
  ghost predicate WeighSame(a: TradeRow, b: TradeRow, bounds: Market) {
    a.amount == b.amount && VolumeForTrade(bounds, a.data) == VolumeForTrade(bounds, b.data)
  }

  /** Processing a fill keeps the volumes in agreement exactly when it is the only fill of its order in its block, or
      the first such trade stored weighs the same. */
  lemma FillKeepsAgreement(t: Tables, log: Log)
    requires VolumesAgree(t) && Filled(t, log).Ok?
    ensures var trade := LoggedTrade(t, log);
      VolumesAgree(Filled(t, log).value) <==>
      WeighSame((Matching(t.trades, trade.key) + [trade])[0], trade, t.markets[trade.key.id.marketId].bounds)
  {
    hide Discrepancy, VolumeForTrade, Matching;
    var after, trade := Filled(t, log).value, LoggedTrade(t, log);
    var id, bounds := trade.key.id, t.markets[trade.key.id.marketId].bounds;
    var first := (Matching(t.trades, trade.key) + [trade])[0];
    FirstOfMatching(t.trades, trade.key);
    assert first.key == trade.key;
    FilledKeepsKeys(t, log);
    hide Filled, Refusal;
    if VolumesAgree(after) {
      FillMovesVolume(t, log, MarketVolume(id.marketId, bounds));
      FillMovesVolume(t, log, MarketShareVolume(id.marketId));
    }
    if WeighSame(first, trade, bounds) {
      forall measure | Measured(after, measure) && IsVolume(measure)
        ensures Discrepancy(after, measure) == 0.0
      {
        MeasuredStays(after, t, measure);
        FillMovesVolume(t, log, measure);
        SameWeight(first, trade, bounds, t, measure);
      }
    }
  }

  lemma SameWeight(a: TradeRow, b: TradeRow, bounds: Market, t: Tables, measure: Measure)
    requires a.key == b.key && WeighSame(a, b, bounds) && Measured(t, measure) && IsVolume(measure)
    requires a.key.id.marketId in t.markets && t.markets[a.key.id.marketId].bounds == bounds
    ensures Weight(measure, a) == Weight(measure, b)
  {
  }

  /** A second fill of the same order in the same block, for another amount, breaks the agreement: the first one is
      counted again in its place. */
  lemma SecondFillInBlockBreaksAgreement(t: Tables, first: Log, second: Log)
    requires VolumesAgree(t) && Filled(t, first).Ok? && Filled(Filled(t, first).value, second).Ok?
    requires Matching(t.trades, LoggedTrade(t, first).key) == []
    requires LoggedTrade(Filled(t, first).value, second).key == LoggedTrade(t, first).key
        && second.amount != first.amount
    ensures VolumesAgree(Filled(t, first).value)
    ensures !VolumesAgree(Filled(Filled(t, first).value, second).value)
  {
    assert Refusal(t, first) == None;
    hide Filled, Matching, VolumesAgree, VolumeForTrade, Refusal;
    FillKeepsAgreement(t, first);
    FilledKeepsKeys(t, first);
    MatchingAppend(t.trades, LoggedTrade(t, first), LoggedTrade(t, first).key);
    FillKeepsAgreement(Filled(t, first).value, second);
  }

  predicate Covers(measure: Measure, key: TradeKey) {
    match measure
    case MarketVolume(m, _) => key.id.marketId == m
    case MarketShareVolume(m) => key.id.marketId == m
    case OutcomeVolume(id, _) => key.id == id
    case OutcomeShareVolume(id) => key.id == id
    case _ => false
  }

  /** Trades under one key add the same to their market's volumes as to their outcome's, and nothing elsewhere. */
  lemma {:induction false} SameKeyTotals(trades: seq<TradeRow>, key: TradeKey, bounds: Market, t: Tables,
      measure: Measure)
    requires forall i :: 0 <= i < |trades| ==> trades[i].key == key
    requires Measured(t, measure) && IsVolume(measure) && key.id.marketId in t.markets
        && t.markets[key.id.marketId].bounds == bounds
    ensures Total(measure, trades) ==
      if !Covers(measure, key) then 0.0
      else if measure.MarketVolume? || measure.OutcomeVolume? then Total(MarketVolume(key.id.marketId, bounds), trades)
      else Total(MarketShareVolume(key.id.marketId), trades)
  {
    hide VolumeForTrade;
    if trades != [] {
      SameKeyTotals(trades[1..], key, bounds, t, measure);
    }
  }

  /** Removing a fill deletes every trade of its order in its block but takes only the first off the volumes: they stay
      in agreement exactly when the others, if any, add up to no shares and no volume. */
  lemma RemovalKeepsAgreement(t: Tables, log: Log)
    requires VolumesAgree(t) && FillRemoved(t, log).Ok?
    ensures var key := LoggedTrade(t, log).key;
      Matching(t.trades, key) != [] &&
      var others := Matching(t.trades, key)[1..];
      VolumesAgree(FillRemoved(t, log).value) <==>
      Total(MarketShareVolume(key.id.marketId), others) == 0.0
      && Total(MarketVolume(key.id.marketId, t.markets[key.id.marketId].bounds), others) == 0.0
  {
    assert Refusal(t, log) == None;
    hide FillRemoved, Discrepancy, Total;
    var after, key := FillRemoved(t, log).value, LoggedTrade(t, log).key;
    var m, bounds := key.id.marketId, t.markets[key.id.marketId].bounds;
    RemovalKeepsKeys(t, log);
    FirstOfMatching(t.trades, key);
    RemovalMovesVolume(t, log, MarketVolume(m, bounds));
    RemovalMovesVolume(t, log, MarketShareVolume(m));
    var matching := Matching(t.trades, key);
    assert forall i :: 0 <= i < |matching| ==> matching[i] in matching;
    var others := matching[1..];
    if Total(MarketShareVolume(m), others) == 0.0 && Total(MarketVolume(m, bounds), others) == 0.0 {
      forall measure | Measured(after, measure) && IsVolume(measure)
        ensures Discrepancy(after, measure) == 0.0
      {
        MeasuredStays(after, t, measure);
        RemovalMovesVolume(t, log, measure);
        SameKeyTotals(others, key, bounds, t, measure);
      }
    }
  }

  /** Where the volumes agree, rebuilding from scratch finds every stored volume; a market or outcome it leaves out
      has a stored volume of zero. */
  lemma RebuildFindsStoredVolumes(t: Tables, r: RebuildVolumeResult, id: OutcomeId)
    requires VolumesAgree(t) && Computed(BoundsOf(t), t.trades, r) && id.marketId in t.markets
    ensures t.markets[id.marketId].volume == ValueOr(r.volumeByMarketId, id.marketId)
    ensures id in t.outcomes ==> t.outcomes[id].volume == ValueOr(OutcomesOr(r, id.marketId), id.outcome)
  {
    var bounds := t.markets[id.marketId].bounds;
    assert Measured(t, MarketVolume(id.marketId, bounds));
    assert id in t.outcomes ==> Measured(t, OutcomeVolume(id, bounds));
    ComputedLookup(BoundsOf(t), t.trades, r, id);
  }

  /** Stored volumes of a market's first `n` outcomes, added up. */
  function SumOfOutcomes(t: Tables, m: Address, n: nat): real
    requires forall o :: 0 <= o < n ==> OutcomeId(m, o) in t.outcomes
  {
    if n == 0 then 0.0 else SumOfOutcomes(t, m, n - 1) + t.outcomes[OutcomeId(m, n - 1)].volume
  }

  function SumOfOutcomeTotals(m: Address, bounds: Market, trades: seq<TradeRow>, n: nat): real {
    if n == 0 then 0.0
    else SumOfOutcomeTotals(m, bounds, trades, n - 1) + Total(OutcomeVolume(OutcomeId(m, n - 1), bounds), trades)
  }

  lemma {:induction false} OutcomeTotalsOfNone(m: Address, bounds: Market, n: nat)
    ensures SumOfOutcomeTotals(m, bounds, [], n) == 0.0
  {
    if n > 0 { OutcomeTotalsOfNone(m, bounds, n - 1); }
  }

  lemma {:induction false} OutcomeTotalsStep(m: Address, bounds: Market, trades: seq<TradeRow>, n: nat)
    requires trades != []
    ensures SumOfOutcomeTotals(m, bounds, trades, n) == SumOfOutcomeTotals(m, bounds, trades[1..], n)
      + if trades[0].key.id.marketId == m && trades[0].key.id.outcome < n
        then VolumeForTrade(bounds, trades[0].data) else 0.0
  {
    hide VolumeForTrade;
    if n > 0 { OutcomeTotalsStep(m, bounds, trades, n - 1); }
  }

  lemma {:induction false} MarketTotalIsSumOfOutcomes(m: Address, bounds: Market, trades: seq<TradeRow>, n: nat)
    requires forall i :: 0 <= i < |trades| && trades[i].key.id.marketId == m ==> trades[i].key.id.outcome < n
    ensures Total(MarketVolume(m, bounds), trades) == SumOfOutcomeTotals(m, bounds, trades, n)
  {
    hide VolumeForTrade;
    if trades == [] {
      OutcomeTotalsOfNone(m, bounds, n);
    } else {
      OutcomeTotalsStep(m, bounds, trades, n);
      MarketTotalIsSumOfOutcomes(m, bounds, trades[1..], n);
    }
  }

  lemma {:induction false} StoredOutcomesAreTotals(t: Tables, m: Address, n: nat)
    requires VolumesAgree(t) && m in t.markets
    requires forall o :: 0 <= o < n ==> OutcomeId(m, o) in t.outcomes
    ensures SumOfOutcomes(t, m, n) == SumOfOutcomeTotals(m, t.markets[m].bounds, t.trades, n)
  {
    if n > 0 {
      StoredOutcomesAreTotals(t, m, n - 1);
      assert Measured(t, OutcomeVolume(OutcomeId(m, n - 1), t.markets[m].bounds));
    }
  }

  /** Where the volumes agree, a market's volume is the sum of its outcomes' volumes. */
  lemma MarketVolumeIsSumOfOutcomes(t: Tables, m: Address, numOutcomes: nat)
    requires VolumesAgree(t) && m in t.markets
    requires forall o :: 0 <= o < numOutcomes ==> OutcomeId(m, o) in t.outcomes
    requires forall i ::
        0 <= i < |t.trades| && t.trades[i].key.id.marketId == m ==> t.trades[i].key.id.outcome < numOutcomes
    ensures t.markets[m].volume == SumOfOutcomes(t, m, numOutcomes)
  {
    StoredOutcomesAreTotals(t, m, numOutcomes);
    MarketTotalIsSumOfOutcomes(m, t.markets[m].bounds, t.trades, numOutcomes);
    assert Measured(t, MarketVolume(m, t.markets[m].bounds));
  }
}
