/** Open interest of categories, kept up to date by change while markets trade, finalize and un-finalize. */
module Categories {
  import opened Results

  type Address = string

  datatype ReportingState =
    | PRE_REPORTING | DESIGNATED_REPORTING | OPEN_REPORTING | CROWDSOURCING_DISPUTE | AWAITING_NEXT_WINDOW
    | AWAITING_FINALIZATION | FINALIZED | FORKING | AWAITING_NO_REPORT_MIGRATION | AWAITING_FORK_MIGRATION

  datatype MarketRow = MarketRow(category: string, numTicks: real, openInterest: real)

  datatype CategoryRow = CategoryRow(openInterest: real, nonFinalizedOpenInterest: real)

  /** `marketStates` holds the states each market has had, oldest first; the market points to the last. */
  datatype Tables = Tables(markets: map<Address, MarketRow>, marketStates: map<Address, seq<ReportingState>>,
      categories: map<string, CategoryRow>)

  const WEI_PER_ETHER: real := 1000000000000000000.0

  function OpenInterestInEther(shareSupply: real, numTicks: real): real {
    shareSupply * numTicks / WEI_PER_ETHER
  }

  // ---------------------------------------------------------------- changes of the tables

  function StatesOf(t: Tables, m: Address): seq<ReportingState> {
    if m in t.marketStates then t.marketStates[m] else []
  }

  /** A market without any state is not finalized. */
  predicate IsFinalized(t: Tables, m: Address) {
    var states := StatesOf(t, m);
    |states| > 0 && states[|states| - 1] == FINALIZED
  }

  function StateSet(t: Tables, m: Address, state: ReportingState): Tables {
    t.(marketStates := t.marketStates[m := StatesOf(t, m) + [state]])
  }

  function StateDropped(t: Tables, m: Address): Tables
    requires |StatesOf(t, m)| > 0
  {
    t.(marketStates := t.marketStates[m := StatesOf(t, m)[..|StatesOf(t, m)| - 1]])
  }

  /** The market's category loses `amount` of the open interest counted as not finalized. */
  function LessNonFinalized(t: Tables, m: Address, amount: real): Tables
    requires m in t.markets && t.markets[m].category in t.categories
  {
    var c := t.markets[m].category;
    var row := t.categories[c];
    t.(categories := t.categories[c := row.(nonFinalizedOpenInterest := row.nonFinalizedOpenInterest - amount)])
  }

  function Created(t: Tables, m: Address, category: string, numTicks: real): Tables {
    var s := StateSet(t, m, PRE_REPORTING);
    Tables(
      s.markets[m := MarketRow(category, numTicks, 0.0)], s.marketStates,
      if category in s.categories then s.categories else s.categories[category := CategoryRow(0.0, 0.0)])
  }

  /** Open interest set anew; the category moves by the difference. */
  function OpenInterestSet(t: Tables, m: Address, openInterest: real): Tables
    requires m in t.markets && t.markets[m].category in t.categories
  {
    var market := t.markets[m];
    var c, delta := t.categories[market.category], openInterest - market.openInterest;
    var rest := if IsFinalized(t, m) then c.nonFinalizedOpenInterest else c.nonFinalizedOpenInterest + delta;
    t.(markets := t.markets[m := market.(openInterest := openInterest)],
       categories := t.categories[market.category := CategoryRow(c.openInterest + delta, rest)])
  }

  /** The state changes first, then the category. */
  function Finalized(t: Tables, m: Address): Tables
    requires m in t.markets && t.markets[m].category in t.categories
  {
    LessNonFinalized(StateSet(t, m, FINALIZED), m, t.markets[m].openInterest)
  }

  function Unfinalized(t: Tables, m: Address): Tables
    requires m in t.markets && t.markets[m].category in t.categories && IsFinalized(t, m)
  {
    LessNonFinalized(StateDropped(t, m), m, -t.markets[m].openInterest)
  }

  // ---------------------------------------------------------------- the processors

  /** Refused logs abort their database transaction; only what accepted ones leave is stated. */
  class CategoryTables {
    var markets: map<Address, MarketRow>
    var marketStates: map<Address, seq<ReportingState>>
    var categories: map<string, CategoryRow>

    function Rows(): Tables
      reads this
    {
      Tables(markets, marketStates, categories)
    }

    constructor ()
      ensures Rows() == Tables(map[], map[], map[])
    {
      markets, marketStates, categories := map[], map[], map[];
    }

    method UpdateMarketState(marketId: Address, reportingState: ReportingState)
      modifies this`marketStates
      ensures Rows() == StateSet(old(Rows()), marketId, reportingState)
    {
      var states := if marketId in marketStates then marketStates[marketId] else [];
      marketStates := marketStates[marketId := states + [reportingState]];
    }

    /** Takes back the latest state, which must be the expected one. */
    method RollbackMarketState(marketId: Address, expectedState: ReportingState) returns (r: Result<()>)
      modifies this`marketStates
      ensures r.Ok? <==> var s := old(StatesOf(Rows(), marketId)); |s| > 0 && s[|s| - 1] == expectedState
      ensures r.Ok? ==> Rows() == StateDropped(old(Rows()), marketId)
      ensures r.Err? ==> Rows() == old(Rows())
    {
      var states := if marketId in marketStates then marketStates[marketId] else [];
      if states == [] || states[|states| - 1] != expectedState {
        return Err("Unable to rollback market because it is not the most current state");
      }
      marketStates := marketStates[marketId := states[..|states| - 1]];
      r := Ok(());
    }

    method ProcessMarketCreatedLog(marketId: Address, category: string, numTicks: real) returns (r: Result<()>)
      modifies this
      ensures r.Ok? <==> marketId !in old(markets)
      ensures r.Ok? ==> markets == old(markets)[marketId := MarketRow(category, numTicks, 0.0)]
      ensures r.Ok? ==> category in categories
      ensures r.Ok? ==> Rows() == Created(old(Rows()), marketId, category, numTicks)
    {
      UpdateMarketState(marketId, PRE_REPORTING);
      if marketId in markets { return Err("UNIQUE constraint failed: markets.marketId"); }
      markets := markets[marketId := MarketRow(category, numTicks, 0.0)];
      if category !in categories {
        categories := categories[category := CategoryRow(0.0, 0.0)];
      }
      r := Ok(());
    }

    method UpdateCategoryAggregationsOnMarketOpenInterestChanged(
      categoryName: string, newOpenInterest: real, oldOpenInterest: real, finalized: bool) returns (r: Result<()>)
      modifies this`categories
      ensures r.Ok? <==> categoryName in old(categories)
      ensures r.Ok? ==>
        var was, delta := old(categories)[categoryName], newOpenInterest - oldOpenInterest;
        categories == old(categories)[categoryName := CategoryRow(
          was.openInterest + delta, was.nonFinalizedOpenInterest + if finalized then 0.0 else delta)]
    {
      if categoryName !in categories { return Err("No category found with name " + categoryName); }
      var row, oiDelta := categories[categoryName], newOpenInterest - oldOpenInterest;
      var updated := row.(openInterest := row.openInterest + oiDelta);
      if !finalized {
        updated := updated.(nonFinalizedOpenInterest := row.nonFinalizedOpenInterest + oiDelta);
      }
      categories := categories[categoryName := updated];
      r := Ok(());
    }

    /** The market's open interest is taken from its share supply; the category follows. */
    method UpdateMarketOpenInterest(marketId: Address, shareSupply: real) returns (r: Result<()>)
      modifies this`markets, this`categories
      ensures r.Ok? <==> marketId in old(markets) && old(markets)[marketId].category in old(categories)
      ensures r.Ok? ==> marketId in markets
      ensures r.Ok? ==>
        markets[marketId].openInterest * 1000000000000000000.0 == shareSupply * old(markets)[marketId].numTicks
      ensures r.Ok? ==>
        markets == old(markets)[marketId := old(markets)[marketId].(openInterest := markets[marketId].openInterest)]
      ensures r.Ok? ==>
        Rows() == OpenInterestSet(old(Rows()), marketId,
            OpenInterestInEther(shareSupply, old(markets)[marketId].numTicks))
    {
      if marketId !in markets { return Err("No marketId for openInterest: " + marketId); }
      var market, finalized := markets[marketId], IsFinalized(Rows(), marketId);
      var newOpenInterest := OpenInterestInEther(shareSupply, market.numTicks);
      markets := markets[marketId := market.(openInterest := newOpenInterest)];
      r := UpdateCategoryAggregationsOnMarketOpenInterestChanged(market.category, newOpenInterest, market.openInterest,
          finalized);
    }

    method MarketFinalizedHelper(marketId: Address) returns (r: Result<(string, real, real)>)
      ensures r.Ok? <==> marketId in markets && markets[marketId].category in categories
      ensures r.Ok? ==>
        var c := markets[marketId].category;
        r.value == (c, categories[c].nonFinalizedOpenInterest, markets[marketId].openInterest)
    {
      if marketId !in markets { return Err("No market with marketId " + marketId); }
      var market := markets[marketId];
      if market.category !in categories { return Err("No category found with name " + market.category); }
      r := Ok((market.category, categories[market.category].nonFinalizedOpenInterest, market.openInterest));
    }

    method ProcessMarketFinalizedLog(marketId: Address) returns (r: Result<()>)
      modifies this`marketStates, this`categories
      ensures r.Ok? <==> marketId in markets && markets[marketId].category in old(categories)
      ensures r.Ok? ==> Rows() == Finalized(old(Rows()), marketId)
    {
      UpdateMarketState(marketId, FINALIZED);
      var data := MarketFinalizedHelper(marketId);
      if data.Err? { return Err(data.error); }
      var (category, categoryNonFinalized, marketOpenInterest) := data.value;
      categories := categories[category :=
          categories[category].(nonFinalizedOpenInterest := categoryNonFinalized - marketOpenInterest)];
      r := Ok(());
    }

    method ProcessMarketFinalizedLogRemoval(marketId: Address) returns (r: Result<()>)
      modifies this`marketStates, this`categories
      ensures r.Ok? <==>
          old(IsFinalized(Rows(), marketId)) && marketId in markets && markets[marketId].category in old(categories)
      ensures r.Ok? ==> Rows() == Unfinalized(old(Rows()), marketId)
    {
      r := RollbackMarketState(marketId, FINALIZED);
      if r.Err? { return; }
      var data := MarketFinalizedHelper(marketId);
      if data.Err? { return Err(data.error); }
      var (category, categoryNonFinalized, marketOpenInterest) := data.value;
      categories := categories[category :=
          categories[category].(nonFinalizedOpenInterest := categoryNonFinalized + marketOpenInterest)];
      r := Ok(());
    }
  }
}
