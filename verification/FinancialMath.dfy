/** Position accounting formulas: share prices, quantities opened and closed, costs, revenues and profits.
    Money and prices are exact reals; a share quantity carries its own sign, as the source's quantities do. */
module FinancialMath {

  datatype PositionType = Closed | Long | Short

  /** A market's price bounds. */
  datatype Market = Market(minPrice: real, maxPrice: real) {
    function DisplayRange(): real { maxPrice - minPrice }

    predicate HasPrice(tradePrice: real) { minPrice <= tradePrice <= maxPrice }
  }

  /** A magnitude with a sign bit. The bit is forced for nonzero magnitudes and free for zero. */
  datatype SignedReal = SignedReal(magnitude: real, negative: bool) {
    predicate Valid() {
      && (magnitude > 0.0 ==> !negative)
      && (magnitude < 0.0 ==> negative)
    }
  }

  type Shares = s: SignedReal | s.Valid() witness SignedReal(0.0, false)

  function Abs(x: real): real { if x < 0.0 then -x else x }

  function Min(x: real, y: real): real { if x <= y then x else y }

  function Max(x: real, y: real): real { if x <= y then y else x }

  /** The quantity read back from a stored decimal; a stored zero reads as positive zero. */
  function ToShares(x: real): Shares { SignedReal(x, x < 0.0) }

  function GetPositionType(netPosition: Shares): PositionType {
    if netPosition.magnitude == 0.0 then Closed
    else if netPosition.negative then Short
    else Long
  }

  function GetTradePriceMinusMinPrice(market: Market, tradePrice: real): real {
    tradePrice - market.minPrice
  }

  function GetTradePrice(market: Market, tradePriceMinusMinPrice: real): real {
    market.minPrice + tradePriceMinusMinPrice
  }

  /** The share price of a trade price. */
  function GetSharePrice(market: Market, positionType: PositionType, tradePrice: real): real {
    match positionType
    case Closed => 0.0
    case Short => market.maxPrice - tradePrice
    case Long => GetTradePriceMinusMinPrice(market, tradePrice)
  }

  function GetSharePriceForPosition(market: Market, netPosition: Shares, tradePriceMinusMinPrice: real): real {
    GetSharePrice(market, GetPositionType(netPosition), GetTradePrice(market, tradePriceMinusMinPrice))
  }

  /** Sum of two quantities; a zero sum is negative only when both terms are. */
  function GetNextNetPosition(netPosition: Shares, delta: Shares): Shares {
    var sum := netPosition.magnitude + delta.magnitude;
    SignedReal(sum, if sum == 0.0 then netPosition.negative && delta.negative else sum < 0.0)
  }

  function GetTradeQuantityClosed(netPosition: Shares, delta: Shares): real {
    if delta.magnitude == 0.0 || delta.negative == netPosition.negative then 0.0
    else Min(Abs(netPosition.magnitude), Abs(delta.magnitude))
  }

  function GetTradeQuantityOpened(netPosition: Shares, delta: Shares): real {
    if delta.magnitude == 0.0 then 0.0
    else if delta.negative == netPosition.negative then Abs(delta.magnitude)
    else if Abs(delta.magnitude) > Abs(netPosition.magnitude) then Abs(delta.magnitude + netPosition.magnitude)
    else 0.0
  }

  /** How the next average price is obtained; only the last branch divides. */
  datatype AverageBranch = PositionClosed | PositionReversed | NothingOpened | OpenedFurther

  function GetAverageBranch(netPosition: Shares, delta: Shares): AverageBranch {
    var next := GetNextNetPosition(netPosition, delta);
    if next.magnitude == 0.0 then PositionClosed
    else if next.negative != netPosition.negative then PositionReversed
    else if GetTradeQuantityOpened(netPosition, delta) == 0.0 then NothingOpened
    else OpenedFurther
  }

  function GetNextAverage(netPosition: Shares, average: real, delta: Shares, tradePriceMinusMinPrice: real): real {
    match GetAverageBranch(netPosition, delta)
    case PositionClosed => 0.0
    case PositionReversed => tradePriceMinusMinPrice
    case NothingOpened => average
    case OpenedFurther =>
      (Abs(netPosition.magnitude) * average + Abs(delta.magnitude) * tradePriceMinusMinPrice)
      / Abs(GetNextNetPosition(netPosition, delta).magnitude)
  }

  function GetTradeRealizedCostDelta(market: Market, netPosition: Shares, delta: Shares, average: real): real {
    GetSharePriceForPosition(market, netPosition, average) * GetTradeQuantityClosed(netPosition, delta)
  }

  function GetTradeRealizedRevenueDelta(market: Market, netPosition: Shares, delta: Shares,
      tradePriceMinusMinPrice: real): real {
    GetSharePriceForPosition(market, netPosition, tradePriceMinusMinPrice) * GetTradeQuantityClosed(netPosition, delta)
  }

  function GetTradeRealizedProfitDelta(market: Market, netPosition: Shares, delta: Shares, average: real,
      tradePriceMinusMinPrice: real): real {
    GetTradeRealizedRevenueDelta(market, netPosition, delta, tradePriceMinusMinPrice)
    - GetTradeRealizedCostDelta(market, netPosition, delta, average)
  }

  function GetUnrealizedCost(market: Market, netPosition: Shares, average: real): real {
    GetSharePriceForPosition(market, netPosition, average) * Abs(netPosition.magnitude)
  }

  function GetUnrealizedRevenue(market: Market, netPosition: Shares, lastPriceMinusMinPrice: real): real {
    GetSharePriceForPosition(market, netPosition, lastPriceMinusMinPrice) * Abs(netPosition.magnitude)
  }

  function GetUnrealizedProfit(market: Market, netPosition: Shares, average: real, lastPriceMinusMinPrice: real): real {
    GetUnrealizedRevenue(market, netPosition, lastPriceMinusMinPrice) - GetUnrealizedCost(market, netPosition, average)
  }

  function GetTotalCost(market: Market, netPosition: Shares, average: real, realizedCost: real): real {
    GetUnrealizedCost(market, netPosition, average) + realizedCost
  }

  function GetTotalProfit(market: Market, netPosition: Shares, average: real, lastPriceMinusMinPrice: real,
      realizedProfit: real): real {
    GetUnrealizedProfit(market, netPosition, average, lastPriceMinusMinPrice) + realizedProfit
  }
}
