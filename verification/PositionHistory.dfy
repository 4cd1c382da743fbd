/** Whole-history results: what realized and unrealized figures mean after any sequence of trades. */
module PositionHistory {
  import opened FinancialMath
  import opened RealMath
  import opened Results
  import opened ProfitLoss
  import opened PositionSteps

  /** One call that updates a position: a trade, or a claim when there is no trade data. */
  datatype Update = Update(delta: real, tradePrice: real, tradeData: Option<TradeData>)

  /** The account takes part in the trade, so the update is not refused. */
  predicate IsParty(account: Address, u: Update) {
    u.tradeData.Some? ==> account == u.tradeData.value.creator || account == u.tradeData.value.filler
  }

  /** The position after one update; an update of zero shares or a refused one changes nothing. */
  function Advance(market: Market, account: Address, prev: Position, u: Update): Position {
    if u.delta == 0.0 then prev
    else
      match NextPosition(market, account, prev, u.delta, u.tradePrice, u.tradeData)
      case Err(_) => prev
      case Ok(next) => next
  }

  function After(market: Market, account: Address, updates: seq<Update>): Position {
    if updates == [] then NO_POSITION
    else Advance(market, account, After(market, account, updates[..|updates| - 1]), updates[|updates| - 1])
  }

  predicate AllParty(account: Address, updates: seq<Update>) {
    forall i :: 0 <= i < |updates| ==> IsParty(account, updates[i])
  }

  lemma AdvanceCarries(market: Market, account: Address, prev: Position, u: Update)
    requires u.delta != 0.0 && IsParty(account, u)
    ensures var next := Advance(market, account, prev, u);
      next.(frozenFunds := prev.frozenFunds) == Carry(market, prev, u.delta, u.tradePrice)
  {
  }

  // ---------------------------------------------------------------- mark to market

  /** Cash gained per trade if every trade were closed at `lastPrice`. */
  function MarkedGain(u: Update, lastPrice: real): real {
    u.delta * (lastPrice - u.tradePrice)
  }

  function MarkedGains(updates: seq<Update>, lastPrice: real): real {
    if updates == [] then 0.0
    else MarkedGains(updates[..|updates| - 1], lastPrice) + MarkedGain(updates[|updates| - 1], lastPrice)
  }

  function NetDelta(updates: seq<Update>): real {
    if updates == [] then 0.0 else NetDelta(updates[..|updates| - 1]) + updates[|updates| - 1].delta
  }

  /** After any trades, realized plus unrealized profit at any last price is what the trades gained marked to it. */
  lemma {:induction false} MarkToMarket(market: Market, account: Address, updates: seq<Update>, lastPrice: real)
    requires AllParty(account, updates)
    ensures TotalProfit(market, After(market, account, updates), lastPrice) == MarkedGains(updates, lastPrice)
    ensures After(market, account, updates).position == NetDelta(updates)
  {
    hide TotalProfit, NextPosition, Carry, MarkedGain;
    if updates == [] {
      NothingGained(market, lastPrice);
    } else {
      var before, u := updates[..|updates| - 1], updates[|updates| - 1];
      MarkToMarket(market, account, before, lastPrice);
      MarkedStep(market, account, After(market, account, before), u, lastPrice);
    }
  }

  lemma NothingGained(market: Market, lastPrice: real)
    ensures TotalProfit(market, NO_POSITION, lastPrice) == 0.0
  {
  }

  lemma MarkedStep(market: Market, account: Address, prev: Position, u: Update, lastPrice: real)
    requires IsParty(account, u)
    ensures var next := Advance(market, account, prev, u);
      && TotalProfit(market, next, lastPrice) == TotalProfit(market, prev, lastPrice) + MarkedGain(u, lastPrice)
      && next.position == prev.position + u.delta
  {
    hide NextPosition, GetTotalProfit;
    if u.delta != 0.0 {
      AdvanceCarries(market, account, prev, u);
      TotalProfitStep(market, prev, u.delta, u.tradePrice, lastPrice);
      FrozenIsNotProfit(market, Advance(market, account, prev, u), prev.frozenFunds, lastPrice);
    }
  }

  lemma FrozenIsNotProfit(market: Market, p: Position, frozenFunds: real, lastPrice: real)
    ensures TotalProfit(market, p.(frozenFunds := frozenFunds), lastPrice) == TotalProfit(market, p, lastPrice)
  {
  }

  lemma {:induction false} MarkedGainsAppend(a: seq<Update>, b: seq<Update>, lastPrice: real)
    ensures MarkedGains(a + b, lastPrice) == MarkedGains(a, lastPrice) + MarkedGains(b, lastPrice)
    ensures NetDelta(a + b) == NetDelta(a) + NetDelta(b)
    decreases |b|
  {
    if b == [] {
      assert a + b == a;
    } else {
      var before := b[..|b| - 1];
      MarkedGainsAppend(a, before, lastPrice);
      assert (a + b)[..|a + b| - 1] == a + before;
    }
  }

  /** Total profit and position do not depend on the order of the trades. */
  lemma {:induction false} GainsIgnoreOrder(a: seq<Update>, b: seq<Update>, lastPrice: real)
    requires multiset(a) == multiset(b)
    ensures MarkedGains(a, lastPrice) == MarkedGains(b, lastPrice) && NetDelta(a) == NetDelta(b)
    decreases |a|
  {
    hide MarkedGains, NetDelta, MarkedGain;
    SameSize(a, b);
    if a == [] {
      assert a == b;
    } else {
      var before, u := a[..|a| - 1], a[|a| - 1];
      assert a == before + [u];
      var left, right := PickOut(before, u, b);
      GainsIgnoreOrder(before, left + right, lastPrice);
      MarkedGainsAppend(left, [u] + right, lastPrice);
      MarkedGainsAppend([u], right, lastPrice);
      MarkedGainsAppend(left, right, lastPrice);
      MarkedGainsAppend(before, [u], lastPrice);
    }
  }

  lemma SameSize(a: seq<Update>, b: seq<Update>)
    requires multiset(a) == multiset(b)
    ensures |a| == |b|
  {
    assert |multiset(a)| == |a| && |multiset(b)| == |b|;
  }

  /** Where an update stands in a reordering, and what is left without it. */
  lemma PickOut(before: seq<Update>, u: Update, b: seq<Update>) returns (left: seq<Update>, right: seq<Update>)
    requires multiset(before + [u]) == multiset(b)
    ensures b == left + ([u] + right) && multiset(left + right) == multiset(before)
  {
    assert u in multiset(b);
    var i :| 0 <= i < |b| && b[i] == u;
    left, right := b[..i], b[i + 1..];
    assert b == left + ([u] + right);
    assert multiset(left + right) == multiset(b) - multiset{u} == multiset(before);
  }

  lemma ProfitIgnoresOrder(market: Market, account: Address, a: seq<Update>, b: seq<Update>, lastPrice: real)
    requires AllParty(account, a) && AllParty(account, b) && multiset(a) == multiset(b)
    ensures var p, q := After(market, account, a), After(market, account, b);
      p.position == q.position && TotalProfit(market, p, lastPrice) == TotalProfit(market, q, lastPrice)
  {
    MarkToMarket(market, account, a, lastPrice);
    MarkToMarket(market, account, b, lastPrice);
    GainsIgnoreOrder(a, b, lastPrice);
  }

  // ---------------------------------------------------------------- costs

  /** Tokens paid, share price by share price, for everything the trades opened. */
  function OpenedCosts(market: Market, account: Address, updates: seq<Update>): real {
    if updates == [] then 0.0
    else
      var before, u := updates[..|updates| - 1], updates[|updates| - 1];
      OpenedCosts(market, account, before)
      + if u.delta == 0.0 then 0.0
          else OpenedCost(market, After(market, account, before).position, u.delta, u.tradePrice)
  }

  /** Realized plus unrealized cost is everything ever paid to open shares. */
  lemma {:induction false} TotalCostIsEverythingPaid(market: Market, account: Address, updates: seq<Update>)
    requires AllParty(account, updates)
    ensures TotalCost(market, After(market, account, updates)) == OpenedCosts(market, account, updates)
  {
    hide TotalCost, NextPosition, Carry, OpenedCost;
    if updates == [] {
      NothingPaid(market);
    } else {
      var before, u := updates[..|updates| - 1], updates[|updates| - 1];
      TotalCostIsEverythingPaid(market, account, before);
      var prev := After(market, account, before);
      if u.delta != 0.0 {
        AdvanceCarries(market, account, prev, u);
        TotalCostStep(market, prev, u.delta, u.tradePrice);
        FrozenIsNotCost(market, Advance(market, account, prev, u), prev.frozenFunds);
      }
    }
  }

  lemma NothingPaid(market: Market)
    ensures TotalCost(market, NO_POSITION) == 0.0 == UnrealizedCost(market, NO_POSITION)
  {
  }

  lemma FrozenIsNotCost(market: Market, p: Position, frozenFunds: real)
    ensures TotalCost(market, p.(frozenFunds := frozenFunds)) == TotalCost(market, p)
    ensures UnrealizedCost(market, p.(frozenFunds := frozenFunds)) == UnrealizedCost(market, p)
  {
  }

  /** Trade prices that opened the current position, oldest first: a reversal starts over, a close leaves none. */
  function OpeningPrices(updates: seq<Update>): seq<real> {
    if updates == [] then []
    else
      var before, u := updates[..|updates| - 1], updates[|updates| - 1];
      if u.delta == 0.0 then OpeningPrices(before)
      else
        match Kind(NetDelta(before), u.delta)
        case Extends => OpeningPrices(before) + [u.tradePrice]
        case Reduces => OpeningPrices(before)
        case Closes => []
        case Reverses => [u.tradePrice]
  }

  /** `x` lies between two of the prices. */
  ghost predicate Between(prices: seq<real>, x: real) {
    (exists lo :: lo in prices && lo <= x) && (exists hi :: hi in prices && x <= hi)
  }

  /** The average price of an open position lies between the least and the greatest price that opened it. */
  lemma {:induction false} AverageIsBetweenOpeningPrices(market: Market, account: Address, updates: seq<Update>)
    requires AllParty(account, updates)
    ensures var p := After(market, account, updates);
      if p.position == 0.0 then OpeningPrices(updates) == []
      else Between(OpeningPrices(updates), GetTradePrice(market, p.average))
  {
    hide NextPosition, Carry;
    if updates != [] {
      var before, u := updates[..|updates| - 1], updates[|updates| - 1];
      AverageIsBetweenOpeningPrices(market, account, before);
      var prev := After(market, account, before);
      MarkToMarket(market, account, before, 0.0);
      if u.delta != 0.0 {
        AdvanceCarries(market, account, prev, u);
        AverageStep(market, prev, u, OpeningPrices(before));
      }
    }
  }

  lemma AverageStep(market: Market, prev: Position, u: Update, prices: seq<real>)
    requires u.delta != 0.0
    requires if prev.position == 0.0 then prices == [] else Between(prices, GetTradePrice(market, prev.average))
    ensures var next := Carry(market, prev, u.delta, u.tradePrice);
      match Kind(prev.position, u.delta)
      case Extends => next.position != 0.0 && Between(prices + [u.tradePrice], GetTradePrice(market, next.average))
      case Reduces => next.position != 0.0 && Between(prices, GetTradePrice(market, next.average))
      case Closes => next.position == 0.0
      case Reverses => next.position != 0.0 && Between([u.tradePrice], GetTradePrice(market, next.average))
  {
    hide GetNextAverage;
    var net, average, price := prev.position, prev.average, GetTradePriceMinusMinPrice(market, u.tradePrice);
    StepByKind(net, u.delta, average, price);
    var next := Carry(market, prev, u.delta, u.tradePrice);
    match Kind(net, u.delta)
    case Extends =>
      var all := prices + [u.tradePrice];
      assert u.tradePrice in all;
      if net == 0.0 {
        FirstAverage(net, u.delta, average, price, next.average);
      } else {
        assert forall x :: x in prices ==> x in all;
        WeightedAverage(net, u.delta, average, price, next.average);
      }
    case Reduces =>
    case Closes =>
    case Reverses =>
      assert u.tradePrice in [u.tradePrice];
  }

  /** The average price of a position opened from nothing is the price of the trade that opened it. */
  lemma FirstAverage(net: real, delta: real, average: real, price: real, next: real)
    requires net == 0.0 && delta != 0.0 && next * (net + delta) == net * average + delta * price
    ensures next == price
  {
    Cancel(next, price, delta);
  }

  /** A weighted average with weights of one sign lies between its two values. */
  lemma WeightedAverage(net: real, delta: real, average: real, price: real, next: real)
    requires (0.0 < net && 0.0 < delta) || (net < 0.0 && delta < 0.0)
    requires next * (net + delta) == net * average + delta * price
    ensures Min(average, price) <= next <= Max(average, price)
  {
    assert (next - average) * net == (price - next) * delta;
    if next < Min(average, price) {
      Opposite(next - average, net, price - next, delta);
    } else if Max(average, price) < next {
      Opposite(price - next, delta, next - average, net);
    }
  }

  lemma Opposite(x: real, a: real, y: real, b: real)
    requires (0.0 < a && 0.0 < b) || (a < 0.0 && b < 0.0)
    requires x < 0.0 < y
    ensures x * a != y * b
  {
    if 0.0 < a {
      ScaleLt(x, 0.0, a);
      ScaleLt(0.0, y, b);
    } else {
      ScaleLt(x, 0.0, -a);
      ScaleLt(0.0, y, -b);
      assert x * -a == -(x * a) && y * -b == -(y * b);
    }
  }

  predicate TradesWithinMarket(market: Market, updates: seq<Update>) {
    forall i :: 0 <= i < |updates| ==> market.HasPrice(updates[i].tradePrice)
  }

  lemma {:induction false} OpeningPricesWithinMarket(market: Market, updates: seq<Update>)
    requires TradesWithinMarket(market, updates)
    ensures forall x :: x in OpeningPrices(updates) ==> market.HasPrice(x)
  {
    if updates != [] {
      OpeningPricesWithinMarket(market, updates[..|updates| - 1]);
    }
  }

  /** Realized cost never falls, as long as trades are priced within the market's bounds. */
  lemma RealizedCostNeverFalls(market: Market, account: Address, updates: seq<Update>, u: Update)
    requires AllParty(account, updates + [u]) && TradesWithinMarket(market, updates)
    ensures After(market, account, updates).realizedCost <= After(market, account, updates + [u]).realizedCost
  {
    hide NextPosition;
    assert (updates + [u])[..|updates|] == updates && (updates + [u])[|updates|] == u;
    assert IsParty(account, u);
    assert AllParty(account, updates) by {
      assert forall i :: 0 <= i < |updates| ==> updates[i] == (updates + [u])[i];
    }
    var prev := After(market, account, updates);
    if u.delta != 0.0 {
      AdvanceCarries(market, account, prev, u);
      QuantitySplits(prev.position, u.delta);
      OpenPriceSigned(market, prev.position, prev.average);
      if prev.position != 0.0 {
        AverageIsBetweenOpeningPrices(market, account, updates);
        OpeningPricesWithinMarket(market, updates);
      }
      ScaleLe(0.0, OpenPrice(market, prev.position, prev.average), ClosedQuantity(prev.position, u.delta));
    }
  }

  // ---------------------------------------------------------------- rounding of the average price

  /** Whether the update divides to get the average price. */
  predicate Divides(net: real, delta: real) {
    delta != 0.0 && GetAverageBranch(ToShares(net), ToShares(delta)) == OpenedFurther
  }

  /** `next` follows `prev` with a division that is off by at most `eps`; frozen funds are unconstrained. */
  ghost predicate RoundedStep(market: Market, prev: Position, u: Update, next: Position, eps: real) {
    if u.delta == 0.0 then next == prev
    else
      var exact := Carry(market, prev, u.delta, u.tradePrice);
      && next.position == exact.position && next.profit == exact.profit && next.realizedCost == exact.realizedCost
      && (if Divides(prev.position, u.delta) then -eps <= next.average - exact.average <= eps
          else next.average == exact.average)
  }

  /** A run of positions from the empty one, each following the last with a rounded division. */
  ghost predicate RoundedRun(market: Market, updates: seq<Update>, run: seq<Position>, eps: real) {
    && |run| == |updates| + 1 && run[0] == NO_POSITION
    && forall i :: 0 <= i < |updates| ==> RoundedStep(market, run[i], updates[i], run[i + 1], eps)
  }

  /** Shares held after each trade that divides, added up. */
  function SharesRounded(updates: seq<Update>): real {
    if updates == [] then 0.0
    else
      var before, u := updates[..|updates| - 1], updates[|updates| - 1];
      SharesRounded(before) + if Divides(NetDelta(before), u.delta) then Abs(NetDelta(before) + u.delta) else 0.0
  }

  /** Rounding moves the total profit away from mark to market by at most `eps` per share held after a division. */
  lemma {:induction false} DriftIsBounded(market: Market, updates: seq<Update>, run: seq<Position>, eps: real,
      lastPrice: real)
    requires RoundedRun(market, updates, run, eps) && 0.0 <= eps
    ensures run[|updates|].position == NetDelta(updates)
    ensures Abs(TotalProfit(market, run[|updates|], lastPrice) - MarkedGains(updates, lastPrice))
         <= eps * SharesRounded(updates)
    decreases |updates|
  {
    hide TotalProfit, MarkedGain, RoundedStep, Divides;
    if updates == [] {
      NothingGained(market, lastPrice);
    } else {
      var n := |updates| - 1;
      var before, u := updates[..n], updates[n];
      assert RoundedRun(market, before, run[..n + 1], eps);
      DriftIsBounded(market, before, run[..n + 1], eps, lastPrice);
      DriftStep(market, run[n], u, run[n + 1], eps, lastPrice);
      if Divides(NetDelta(before), u.delta) {
        assert eps * SharesRounded(updates) == eps * SharesRounded(before) + eps * Abs(NetDelta(before) + u.delta);
      }
    }
  }

  lemma DriftStep(market: Market, prev: Position, u: Update, next: Position, eps: real, lastPrice: real)
    requires RoundedStep(market, prev, u, next, eps) && 0.0 <= eps
    ensures next.position == prev.position + u.delta
    ensures
      Abs(TotalProfit(market, next, lastPrice) - (TotalProfit(market, prev, lastPrice) + MarkedGain(u, lastPrice)))
         <= if Divides(prev.position, u.delta) then eps * Abs(next.position) else 0.0
  {
    hide GetNextAverage, GetTradeRealizedProfitDelta, GetTradeRealizedCostDelta, GetUnrealizedProfit, Divides;
    if u.delta != 0.0 {
      var exact := Carry(market, prev, u.delta, u.tradePrice);
      var last := GetTradePriceMinusMinPrice(market, lastPrice);
      TotalProfitStep(market, prev, u.delta, u.tradePrice, lastPrice);
      UnrealizedProfitSigned(market, exact.position, exact.average, last);
      UnrealizedProfitSigned(market, next.position, next.average, last);
      ErrorIsScaled(next.position, last, exact.average, next.average, eps);
    }
  }

  lemma ErrorIsScaled(net: real, last: real, exact: real, rounded: real, eps: real)
    requires 0.0 <= eps
    ensures -eps <= rounded - exact <= eps ==> Abs(net * (last - rounded) - net * (last - exact)) <= eps * Abs(net)
  {
    var error := exact - rounded;
    assert net * (last - rounded) - net * (last - exact) == net * error;
    if -eps <= error <= eps {
      ScaleLe(error, eps, Abs(net));
      ScaleLe(-eps, error, Abs(net));
      assert net < 0.0 ==> Abs(net) * error == -(net * error) && Abs(net) * -eps == -(eps * Abs(net));
    }
  }

  // ---------------------------------------------------------------- frozen funds

  /** The account's own side of a fill. */
  function MySharesSent(account: Address, data: TradeData): real {
    if account == data.creator then data.numCreatorShares else data.numFillerShares
  }

  function MyTokensSent(account: Address, data: TradeData): real {
    if account == data.creator then data.numCreatorTokens else data.numFillerTokens
  }

  function MyDirection(account: Address, data: TradeData): PositionType {
    if (account == data.creator) == (data.orderType == Buy) then Long else Short
  }

  /** The account's own side of a trade: its direction and price are those of the update. */
  predicate IsOwnTrade(account: Address, u: Update) {
    && u.delta != 0.0 && u.tradeData.Some? && IsParty(account, u)
    && u.tradeData.value.price == u.tradePrice && MyDirection(account, u.tradeData.value) == Direction(u.delta)
  }

  /** A trade the account paid for in shares and tokens: tokens cover, at the share price of its direction, every
      share it did not send. */
  predicate PaidInFull(market: Market, account: Address, u: Update) {
    && IsOwnTrade(account, u)
    && var data := u.tradeData.value;
      MyTokensSent(account, data)
      == (Abs(u.delta) - MySharesSent(account, data)) * GetSharePrice(market, Direction(u.delta), u.tradePrice)
  }

  /** A claim of winnings closes whatever position there is. */
  predicate Claims(prev: Position, u: Update) {
    u.tradeData == None && u.delta == -prev.position
  }

  /** Every update is a trade paid in full or a claim. */
  predicate PaidHistory(market: Market, account: Address, updates: seq<Update>) {
    updates == [] ||
    var before, u := updates[..|updates| - 1], updates[|updates| - 1];
    && PaidHistory(market, account, before)
    && (PaidInFull(market, account, u) || Claims(After(market, account, before), u))
  }

  /** Shares closed that were not paid for in shares, since the last claim that closed a position. */
  function ClosedNotSent(market: Market, account: Address, updates: seq<Update>): real {
    if updates == [] then 0.0
    else
      var before, u := updates[..|updates| - 1], updates[|updates| - 1];
      if u.delta == 0.0 then ClosedNotSent(market, account, before)
      else if u.tradeData == None then 0.0
      else ClosedNotSent(market, account, before)
           + ClosedQuantity(After(market, account, before).position, u.delta) - MySharesSent(account, u.tradeData.value)
  }

  /** Frozen funds exceed unrealized cost by the display range times the shares closed but not sent. */
  lemma {:induction false} FrozenFundsAreUnrealizedCost(market: Market, account: Address, updates: seq<Update>)
    requires PaidHistory(market, account, updates)
    ensures var p := After(market, account, updates);
      p.frozenFunds - UnrealizedCost(market, p) == market.DisplayRange() * ClosedNotSent(market, account, updates)
  {
    hide UnrealizedCost, NextPosition, Carry, ClosedQuantity;
    if updates == [] {
      NothingPaid(market);
    } else {
      var before, u := updates[..|updates| - 1], updates[|updates| - 1];
      FrozenFundsAreUnrealizedCost(market, account, before);
      var prev := After(market, account, before);
      if u.delta != 0.0 {
        if PaidInFull(market, account, u) {
          FrozenStep(market, account, prev, u);
          var closed, sent := ClosedQuantity(prev.position, u.delta), MySharesSent(account, u.tradeData.value);
          var was := ClosedNotSent(market, account, before);
          assert market.DisplayRange() * (was + closed - sent)
              == market.DisplayRange() * was + market.DisplayRange() * (closed - sent);
        } else {
          ClaimClears(market, account, prev, u);
        }
      }
    }
  }

  /** The frozen funds identity over plain reals: `open` is the share price of the trade, `cost` what the closed
      shares had cost per share. */
  lemma FrozenIdentity(range: real, open: real, size: real, opening: real, closing: real, sent: real,
      tokens: real, cost: real)
    requires size == opening + closing && tokens == (size - sent) * open
    ensures -(sent * (range - open)) + tokens + (closing * (range - open) - cost)
         == opening * open - cost + range * (closing - sent)
  {
    assert tokens == size * open - sent * open;
    assert sent * (range - open) == sent * range - sent * open;
    assert closing * (range - open) == closing * range - closing * open;
    assert size * open == opening * open + closing * open;
  }

  lemma FrozenStep(market: Market, account: Address, prev: Position, u: Update)
    requires PaidInFull(market, account, u)
    ensures var next := Advance(market, account, prev, u);
      next.frozenFunds - UnrealizedCost(market, next)
      == prev.frozenFunds - UnrealizedCost(market, prev)
         + market.DisplayRange() * (ClosedQuantity(prev.position, u.delta) - MySharesSent(account, u.tradeData.value))
  {
    hide Carry, GetTradeRealizedCostDelta, UnrealizedCost, NextPosition, GetSharePrice, Market.DisplayRange, Direction,
        ClosedQuantity, Opened;
    var data, net := u.tradeData.value, prev.position;
    var range, open := market.DisplayRange(), GetSharePrice(market, Direction(u.delta), u.tradePrice);
    var closing := ClosedQuantity(net, u.delta);
    TotalCostStep(market, prev, u.delta, u.tradePrice);
    AdvanceCarries(market, account, prev, u);
    FrozenIsNotCost(market, Advance(market, account, prev, u), prev.frozenFunds);
    QuantitySplits(net, u.delta);
    ClosingRevenue(market, net, u.delta, prev.average, u.tradePrice);
    FrozenIdentity(range, open, Abs(u.delta), Opened(net, u.delta), closing, MySharesSent(account, data),
                   MyTokensSent(account, data), ClosedCost(market, net, u.delta, prev.average));
    FrozenOfTrade(market, account, prev, u);
  }

  /** What the trade itself does to frozen funds. */
  lemma FrozenOfTrade(market: Market, account: Address, prev: Position, u: Update)
    requires IsOwnTrade(account, u)
    ensures var data := u.tradeData.value;
      Advance(market, account, prev, u).frozenFunds
      == prev.frozenFunds
         - MySharesSent(account, data)
           * (market.DisplayRange() - GetSharePrice(market, Direction(u.delta), u.tradePrice))
         + MyTokensSent(account, data) + RealizedProfitDelta(market, prev, u.delta, u.tradePrice)
  {
    hide Carry, RealizedProfitDelta;
    assert Direction(u.delta) != Closed;
  }

  /** Closed shares earn the display range less the share price of the trade that closes them. */
  lemma ClosingRevenue(market: Market, net: real, delta: real, average: real, tradePrice: real)
    requires delta != 0.0
    ensures GetTradeRealizedProfitDelta(market, ToShares(net), ToShares(delta), average,
        GetTradePriceMinusMinPrice(market, tradePrice))
         == ClosedQuantity(net, delta) * (market.DisplayRange() - GetSharePrice(market, Direction(delta), tradePrice))
            - ClosedCost(market, net, delta, average)
  {
    hide GetTradeRealizedCostDelta;
    var closing := ClosedQuantity(net, delta);
    if closing == 0.0 || net == 0.0 {
      assert closing == 0.0;
      assert closing * (market.DisplayRange() - GetSharePrice(market, Direction(delta), tradePrice)) == 0.0;
    } else {
      assert OpenPrice(market, net, GetTradePriceMinusMinPrice(market, tradePrice))
          == market.DisplayRange() - GetSharePrice(market, Direction(delta), tradePrice);
    }
  }

  /** A claim leaves no position, no unrealized cost and no frozen funds. */
  lemma ClaimClears(market: Market, account: Address, prev: Position, u: Update)
    requires Claims(prev, u) && u.delta != 0.0
    ensures var next := Advance(market, account, prev, u);
      next.position == 0.0 && UnrealizedCost(market, next) == 0.0 && next.frozenFunds == 0.0
  {
    hide GetNextAverage, GetTradeRealizedCostDelta, RealizedProfitDelta;
  }

  /** Every share closed by a trade is paid for in shares. */
  predicate ClosesInShares(market: Market, account: Address, updates: seq<Update>) {
    updates == [] ||
    var before, u := updates[..|updates| - 1], updates[|updates| - 1];
    && ClosesInShares(market, account, before)
    && (u.delta != 0.0 && u.tradeData.Some? ==>
          ClosedQuantity(After(market, account, before).position, u.delta) == MySharesSent(account, u.tradeData.value))
  }

  /** When closed shares are always paid for in shares, frozen funds equal the unrealized cost. */
  lemma {:induction false} FrozenFundsMatch(market: Market, account: Address, updates: seq<Update>)
    requires PaidHistory(market, account, updates) && ClosesInShares(market, account, updates)
    ensures ClosedNotSent(market, account, updates) == 0.0
    ensures After(market, account, updates).frozenFunds == UnrealizedCost(market, After(market, account, updates))
  {
    hide UnrealizedCost, NextPosition;
    FrozenFundsAreUnrealizedCost(market, account, updates);
    if updates != [] {
      FrozenFundsMatch(market, account, updates[..|updates| - 1]);
    }
  }
}
