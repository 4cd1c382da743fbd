/** What one trade does to a position, case by case, and the identities each case preserves. */
module PositionSteps {
  import opened FinancialMath
  import opened ProfitLoss

  /** The four ways a nonzero trade meets a position. */
  datatype StepKind = Extends | Reduces | Closes | Reverses

  function Kind(net: real, delta: real): StepKind
    requires delta != 0.0
  {
    if net + delta == 0.0 then Closes
    else if net == 0.0 || (net < 0.0) == (delta < 0.0) then Extends
    else if Abs(delta) < Abs(net) then Reduces
    else Reverses
  }

  function Opened(net: real, delta: real): real { GetTradeQuantityOpened(ToShares(net), ToShares(delta)) }

  function ClosedQuantity(net: real, delta: real): real { GetTradeQuantityClosed(ToShares(net), ToShares(delta)) }

  /** The direction a trade takes: what it opens is long for a buy and short for a sell. */
  function Direction(delta: real): PositionType {
    GetPositionType(ToShares(delta))
  }

  /** Nothing computed from a position of zero shares depends on the sign its zero carries. */
  lemma ZeroSignIsIrrelevant(market: Market, zero: Shares, delta: Shares, average: real, price: real)
    requires zero.magnitude == 0.0
    ensures var plain := ToShares(0.0);
      && GetTradeQuantityOpened(zero, delta) == GetTradeQuantityOpened(plain, delta) == Abs(delta.magnitude)
      && GetTradeQuantityClosed(zero, delta) == GetTradeQuantityClosed(plain, delta) == 0.0
      && GetNextNetPosition(zero, delta).magnitude == GetNextNetPosition(plain, delta).magnitude == delta.magnitude
      && GetNextAverage(zero, average, delta, price) == GetNextAverage(plain, average, delta, price)
           == (if delta.magnitude == 0.0 then 0.0 else price)
      && GetTradeRealizedProfitDelta(market, zero, delta, average, price)
           == GetTradeRealizedProfitDelta(market, plain, delta, average, price) == 0.0
      && GetUnrealizedProfit(market, zero, average, price) == GetUnrealizedProfit(market, plain, average, price) == 0.0
  {
    if delta.magnitude != 0.0 {
      var size := Abs(delta.magnitude);
      assert 0.0 * average == 0.0;
      assert (0.0 + size * price) / size == price;
    }
  }

  /** Quantity and average price in each case. */
  lemma StepByKind(net: real, delta: real, average: real, price: real)
    requires delta != 0.0
    ensures var next := GetNextAverage(ToShares(net), average, ToShares(delta), price);
      match Kind(net, delta)
      case Extends => Opened(net, delta) == Abs(delta) && ClosedQuantity(net, delta) == 0.0
                      && next * (net + delta) == net * average + delta * price
      case Reduces => Opened(net, delta) == 0.0 && ClosedQuantity(net, delta) == Abs(delta) && next == average
      case Closes => Opened(net, delta) == 0.0 && ClosedQuantity(net, delta) == Abs(delta) == Abs(net) && next == 0.0
      case Reverses => Opened(net, delta) == Abs(net + delta) && ClosedQuantity(net, delta) == Abs(net) && next == price
  {
    if Kind(net, delta) == Extends {
      ExtendAverage(net, delta, average, price);
    }
  }

  lemma ExtendAverage(net: real, delta: real, average: real, price: real)
    requires delta != 0.0 && Kind(net, delta) == Extends
    ensures GetNextAverage(ToShares(net), average, ToShares(delta), price) * (net + delta)
        == net * average + delta * price
  {
    var size := Abs(net + delta);
    var total := Abs(net) * average + Abs(delta) * price;
    assert GetNextAverage(ToShares(net), average, ToShares(delta), price) * size == total;
  }

  lemma QuantitySplits(net: real, delta: real)
    requires delta != 0.0
    ensures Opened(net, delta) + ClosedQuantity(net, delta) == Abs(delta)
    ensures 0.0 <= Opened(net, delta) && 0.0 <= ClosedQuantity(net, delta) <= Abs(net)
  {
    StepByKind(net, delta, 0.0, 0.0);
  }

  // ---------------------------------------------------------------- signed forms

  /** Realized plus unrealized profit of a position, with the outcome's last price at `lastPrice`. */
  function TotalProfit(market: Market, p: Position, lastPrice: real): real {
    GetTotalProfit(market, ToShares(p.position), p.average, GetTradePriceMinusMinPrice(market, lastPrice), p.profit)
  }

  function UnrealizedCost(market: Market, p: Position): real {
    GetUnrealizedCost(market, ToShares(p.position), p.average)
  }

  function TotalCost(market: Market, p: Position): real {
    GetTotalCost(market, ToShares(p.position), p.average, p.realizedCost)
  }

  /** Share price at which a position or trade of the given sign opens. */
  function OpenPrice(market: Market, quantity: real, priceMinusMinPrice: real): real {
    GetSharePriceForPosition(market, ToShares(quantity), priceMinusMinPrice)
  }

  lemma UnrealizedProfitSigned(market: Market, net: real, average: real, last: real)
    ensures GetUnrealizedProfit(market, ToShares(net), average, last) == net * (last - average)
  {
    if net > 0.0 {
    } else if net < 0.0 {
      var size := -net;
      assert (market.DisplayRange() - last) * size - (market.DisplayRange() - average) * size == net * (last - average);
    }
  }

  lemma RealizedProfitSigned(market: Market, net: real, delta: real, average: real, price: real)
    requires delta != 0.0
    ensures GetTradeRealizedProfitDelta(market, ToShares(net), ToShares(delta), average, price)
         == (if net < 0.0 then -ClosedQuantity(net, delta) else ClosedQuantity(net, delta)) * (price - average)
  {
    var closed := ClosedQuantity(net, delta);
    if net < 0.0 {
      assert (market.DisplayRange() - price) * closed - (market.DisplayRange() - average) * closed
          == -closed * (price - average);
    }
  }

  /** Signed shares closed by a trade: of the position's sign. */
  lemma ClosedSigned(net: real, delta: real)
    requires delta != 0.0
    ensures (if net < 0.0 then -ClosedQuantity(net, delta) else ClosedQuantity(net, delta)) ==
      match Kind(net, delta)
      case Extends => 0.0
      case Reduces => -delta
      case Closes => net
      case Reverses => net
  {
    StepByKind(net, delta, 0.0, 0.0);
  }

  /** The profit identity of one trade, over plain reals. */
  lemma ProfitIdentity(kind: StepKind, net: real, delta: real, average: real, next: real, closed: real,
      price: real, last: real)
    requires match kind
      case Extends => closed == 0.0 && next * (net + delta) == net * average + delta * price
      case Reduces => closed == -delta && next == average
      case Closes => closed == net && net + delta == 0.0
      case Reverses => closed == net && next == price
    ensures (net + delta) * (last - next) + closed * (price - average)
        == net * (last - average) + delta * (last - price)
  {
    match kind
    case Extends =>
      assert (net + delta) * (last - next) == (net + delta) * last - (net * average + delta * price);
    case Reduces =>
    case Closes =>
      assert delta == -net;
      assert (net + delta) * (last - next) == 0.0;
    case Reverses =>
  }

  /** One trade adds exactly its own mark-to-market gain to the total profit. */
  lemma TotalProfitStep(market: Market, prev: Position, delta: real, tradePrice: real, lastPrice: real)
    requires delta != 0.0
    ensures TotalProfit(market, Carry(market, prev, delta, tradePrice), lastPrice)
         == TotalProfit(market, prev, lastPrice) + delta * (lastPrice - tradePrice)
  {
    hide GetNextAverage, GetTradeRealizedProfitDelta, GetUnrealizedProfit, GetTradeQuantityClosed,
         GetTradeQuantityOpened, ClosedQuantity, Kind;
    var net, average, kind := prev.position, prev.average, Kind(prev.position, delta);
    var price, last := GetTradePriceMinusMinPrice(market, tradePrice), GetTradePriceMinusMinPrice(market, lastPrice);
    var next := Carry(market, prev, delta, tradePrice);
    StepByKind(net, delta, average, price);
    ClosedSigned(net, delta);
    RealizedProfitSigned(market, net, delta, average, price);
    UnrealizedProfitSigned(market, net, average, last);
    UnrealizedProfitSigned(market, next.position, next.average, last);
    var closed := if net < 0.0 then -ClosedQuantity(net, delta) else ClosedQuantity(net, delta);
    assert kind == Closes ==> net + delta == 0.0 by { KindOfClose(net, delta); }
    ProfitIdentity(kind, net, delta, average, next.average, closed, price, last);
    assert lastPrice - tradePrice == last - price;
  }

  lemma KindOfClose(net: real, delta: real)
    requires delta != 0.0
    ensures Kind(net, delta) == Closes <==> net + delta == 0.0
  {
  }

  // ---------------------------------------------------------------- costs

  /** What the shares a trade closes had cost to open. */
  function ClosedCost(market: Market, net: real, delta: real, average: real): real {
    GetTradeRealizedCostDelta(market, ToShares(net), ToShares(delta), average)
  }

  lemma OpenPriceSigned(market: Market, quantity: real, price: real)
    ensures quantity > 0.0 ==> OpenPrice(market, quantity, price) == price
    ensures quantity < 0.0 ==> OpenPrice(market, quantity, price) == market.DisplayRange() - price
    ensures quantity == 0.0 ==> OpenPrice(market, quantity, price) == 0.0
  {
  }

  /** The cost identity over plain reals: `range` is the display range; opening or holding `x` costs `|x|` times the
      price for a long, and `|x|` times the range less the price for a short. */
  function Held(range: real, x: real, price: real): real {
    if x < 0.0 then -x * range + x * price else x * price
  }

  lemma UnrealizedCostSigned(market: Market, net: real, average: real)
    ensures GetUnrealizedCost(market, ToShares(net), average) == Held(market.DisplayRange(), net, average)
  {
    OpenPriceSigned(market, net, average);
    if net < 0.0 {
      assert (market.DisplayRange() - average) * -net == -net * market.DisplayRange() + net * average;
    }
  }

  lemma ClosedCostSigned(market: Market, net: real, delta: real, average: real)
    requires delta != 0.0
    ensures var closed := ClosedQuantity(net, delta);
      ClosedCost(market, net, delta, average)
          == Held(market.DisplayRange(), if net < 0.0 then -closed else closed, average)
  {
    hide GetTradeQuantityClosed;
    OpenPriceSigned(market, net, average);
    var closed := ClosedQuantity(net, delta);
    QuantitySplits(net, delta);
    if net < 0.0 {
      assert (market.DisplayRange() - average) * closed == closed * market.DisplayRange() - closed * average;
    }
  }

  /** Tokens a trade pays for the shares it opens. */
  function OpenedCost(market: Market, net: real, delta: real, tradePrice: real): real {
    Opened(net, delta) * GetSharePrice(market, Direction(delta), tradePrice)
  }

  lemma OpenedCostSigned(market: Market, net: real, delta: real, tradePrice: real)
    requires delta != 0.0
    ensures var added := Opened(net, delta);
      OpenedCost(market, net, delta, tradePrice)
      == Held(market.DisplayRange(), if delta < 0.0 then -added else added,
              GetTradePriceMinusMinPrice(market, tradePrice))
  {
    hide GetTradeQuantityOpened;
    QuantitySplits(net, delta);
    var added, price := Opened(net, delta), GetTradePriceMinusMinPrice(market, tradePrice);
    if delta < 0.0 {
      assert added * (market.DisplayRange() - price) == added * market.DisplayRange() - added * price;
    }
  }

  /** Signed shares opened by a trade: of the trade's sign. */
  lemma OpenedSigned(net: real, delta: real)
    requires delta != 0.0
    ensures (if delta < 0.0 then -Opened(net, delta) else Opened(net, delta)) ==
      match Kind(net, delta)
      case Extends => delta
      case Reduces => 0.0
      case Closes => 0.0
      case Reverses => net + delta
  {
    StepByKind(net, delta, 0.0, 0.0);
  }

  lemma CostIdentity(range: real, kind: StepKind, net: real, delta: real, average: real, next: real, price: real)
    requires delta != 0.0 && kind == Kind(net, delta)
    requires match kind
      case Extends => next * (net + delta) == net * average + delta * price
      case Reduces => next == average
      case Closes => true
      case Reverses => next == price
    ensures var added :=
        (match kind case Extends => delta case Reduces => 0.0 case Closes => 0.0 case Reverses => net + delta);
      var closed := (match kind case Extends => 0.0 case Reduces => -delta case Closes => net case Reverses => net);
      Held(range, net + delta, next) + Held(range, closed, average)
          == Held(range, net, average) + Held(range, added, price)
  {
    hide Held;
    match kind
    case Extends =>
      HeldNothing(range, average);
      HeldExtends(range, net, delta, average, next, price);
    case Reduces =>
      HeldNothing(range, price);
      HeldSplits(range, net + delta, -delta, average);
    case Closes =>
      HeldNothing(range, next);
      HeldNothing(range, price);
    case Reverses =>
  }

  lemma HeldNothing(range: real, price: real)
    ensures Held(range, 0.0, price) == 0.0
  {
  }

  lemma HeldSplits(range: real, x: real, y: real, price: real)
    requires (x < 0.0) == (y < 0.0) && (x < 0.0) == (x + y < 0.0)
    ensures Held(range, x, price) + Held(range, y, price) == Held(range, x + y, price)
  {
    assert (x + y) * range == x * range + y * range;
    assert (x + y) * price == x * price + y * price;
  }

  lemma HeldExtends(range: real, net: real, delta: real, average: real, next: real, price: real)
    requires delta != 0.0 && Kind(net, delta) == Extends && next * (net + delta) == net * average + delta * price
    ensures Held(range, net + delta, next) == Held(range, net, average) + Held(range, delta, price)
  {
    assert (net + delta) * range == net * range + delta * range;
    if net == 0.0 {
      assert net * average == 0.0 && net * range == 0.0;
    }
  }

  /** One trade adds to the total cost exactly what it pays for the shares it opens. */
  lemma TotalCostStep(market: Market, prev: Position, delta: real, tradePrice: real)
    requires delta != 0.0
    ensures TotalCost(market, Carry(market, prev, delta, tradePrice))
         == TotalCost(market, prev) + OpenedCost(market, prev.position, delta, tradePrice)
    ensures UnrealizedCost(market, Carry(market, prev, delta, tradePrice))
         == UnrealizedCost(market, prev) + OpenedCost(market, prev.position, delta, tradePrice)
            - ClosedCost(market, prev.position, delta, prev.average)
  {
    hide GetNextAverage, GetTradeRealizedCostDelta, GetUnrealizedCost, GetTradeQuantityClosed, GetTradeQuantityOpened,
        Kind, Held, OpenedCost;
    var net, average, range := prev.position, prev.average, market.DisplayRange();
    var price := GetTradePriceMinusMinPrice(market, tradePrice);
    var next := Carry(market, prev, delta, tradePrice);
    StepByKind(net, delta, average, price);
    ClosedSigned(net, delta);
    OpenedSigned(net, delta);
    CostIdentity(range, Kind(net, delta), net, delta, average, next.average, price);
    UnrealizedCostSigned(market, net, average);
    UnrealizedCostSigned(market, next.position, next.average);
    ClosedCostSigned(market, net, delta, average);
    OpenedCostSigned(market, net, delta, tradePrice);
  }
}
