/** The spread percent of one outcome: a second walk over the book, padded with infinite orders at the bounds. */
module OutcomeSpread {
  import opened FinancialMath
  import opened RealMath
  import opened SimulatedOrderBook
  import opened OrderBookLaws

  /** An order quantity, or the endless quantity of the padding order. */
  datatype Quantity = Finite(shares: real) | Infinite

  datatype PaddedOrder = PaddedOrder(quantity: Quantity, tradePrice: real)

  function AtMost(shares: real, quantity: Quantity): real {
    match quantity
    case Finite(q) => Min(shares, q)
    case Infinite => shares
  }

  /** Where a side's padding order stands: bids end at the lowest price, asks at the highest. */
  function PaddingPrice(market: Market, takeType: TakeType): real {
    if takeType == Long then market.minPrice else market.maxPrice
  }

  /** Total trade price paid for `shares` whose fee-free close earns `proceeds`. */
  function TradeValue(market: Market, takeType: TakeType, shares: real, proceeds: real): real {
    if takeType == Long then proceeds + shares * market.minPrice else shares * market.maxPrice - proceeds
  }

  lemma TradeValueAdds(market: Market, takeType: TakeType, tradePrice: real, q: real, n: real, proceeds: real,
      whole: real)
    requires whole == q * GetSharePrice(market, takeType, tradePrice) + proceeds
    ensures TradeValue(market, takeType, n, whole) == q * tradePrice + TradeValue(market, takeType, n - q, proceeds)
  {
    if takeType == Long {
      assert q * GetSharePrice(market, Long, tradePrice) == q * tradePrice - q * market.minPrice;
    } else {
      assert q * GetSharePrice(market, takeType, tradePrice) == q * market.maxPrice - q * tradePrice;
    }
  }

  /** The price of `n` shares in terms of the orders: what they change hands for, and the rest at the market's bound. */
  function PaddedPrice(market: Market, takeType: TakeType, offers: seq<Offer>, n: real): real {
    PriceFilled(offers, n)
    + (Max(0.0, n) - SharesFilled(offers, n)) * (if takeType == Long then market.minPrice else market.maxPrice)
  }

  lemma TradeValueOfOffers(market: Market, takeType: TakeType, orders: seq<QuantityAtPrice>, n: real)
    ensures TradeValue(market, takeType, Max(0.0, n), Proceeds(Levels(market, takeType, orders), n))
         == PaddedPrice(market, takeType, Offers(orders), n)
  {
    hide Proceeds, PriceFilled, SharesFilled;
    ProceedsOfOffers(market, takeType, orders, n);
    var m, shares := Max(0.0, n), SharesFilled(Offers(orders), n);
    assert (m - shares) * market.minPrice == m * market.minPrice - shares * market.minPrice;
    assert (m - shares) * market.maxPrice == m * market.maxPrice - shares * market.maxPrice;
  }

  /** Takes `numShares` from one side, whose last order never runs out. The value taken is the fee-free proceeds
      of closing that many shares, measured from the padding price. */
  method TakeFromBidsOrAsks(market: Market, orders: seq<QuantityAtPrice>, takeType: TakeType, numShares: real)
    returns (valueTaken: real)
    ensures valueTaken ==
      TradeValue(market, takeType, Max(0.0, numShares), Proceeds(Levels(market, takeType, orders), numShares))
    ensures valueTaken == PaddedPrice(market, takeType, Offers(orders), numShares)
  {
    hide Proceeds, Remaining, TradeValue, GetSharePrice, PaddedPrice;
    TradeValueOfOffers(market, takeType, orders, numShares);
    var bidsOrAsks :=
      seq(|orders|, i requires 0 <= i < |orders| reads orders =>
          PaddedOrder(Finite(orders[i].quantity), orders[i].tradePrice))
      + [PaddedOrder(Infinite, PaddingPrice(market, takeType))];
    ghost var book := Levels(market, takeType, orders);
    ghost var goal := TradeValue(market, takeType, Max(0.0, numShares), Proceeds(book, numShares));
    valueTaken := 0.0;
    var qtyRemainingToTake := numShares;
    var i := 0;
    NoValue(market, takeType, book);
    TakeNothing(book, Min(0.0, numShares));
    while qtyRemainingToTake > 0.0
      invariant 0 <= i <= |orders| + 1
      invariant i > |orders| ==> qtyRemainingToTake <= 0.0 && valueTaken == goal
      invariant i <= |orders| ==>
        valueTaken + TradeValue(market, takeType, Max(0.0, qtyRemainingToTake),
            Proceeds(book[i..], qtyRemainingToTake)) == goal
      decreases |orders| + 1 - i
    {
      var qtyToTakeAtThisPrice := AtMost(qtyRemainingToTake, bidsOrAsks[i].quantity);
      ghost var next := qtyRemainingToTake - qtyToTakeAtThisPrice;
      TakePadded(market, takeType, book, i, qtyRemainingToTake, bidsOrAsks[i]);
      valueTaken := valueTaken + qtyToTakeAtThisPrice * bidsOrAsks[i].tradePrice;
      qtyRemainingToTake := qtyRemainingToTake - qtyToTakeAtThisPrice;
      i := i + 1;
    }
    if i <= |orders| {
      TakeNothing(book[i..], qtyRemainingToTake);
      NoValue(market, takeType, book);
    }
  }

  lemma NoValue(market: Market, takeType: TakeType, book: seq<Level>)
    ensures TradeValue(market, takeType, 0.0, 0.0) == 0.0
  {
  }

  /** One step of the padded walk keeps the value taken plus the value still to take. */
  lemma TakePadded(market: Market, takeType: TakeType, book: seq<Level>, i: nat, n: real, order: PaddedOrder)
    requires i <= |book| && 0.0 < n
    requires if i < |book| then order.quantity == Finite(book[i].quantity)
                                && book[i].sharePrice == GetSharePrice(market, takeType, order.tradePrice)
             else order == PaddedOrder(Infinite, PaddingPrice(market, takeType))
    ensures var q := AtMost(n, order.quantity);
      TradeValue(market, takeType, n, Proceeds(book[i..], n))
      == q * order.tradePrice
         + if i < |book| then TradeValue(market, takeType, Max(0.0, n - q), Proceeds(book[i + 1..], n - q)) else 0.0
  {
    hide Proceeds, Remaining, TradeValue, GetSharePrice;
    var q := AtMost(n, order.quantity);
    if i < |book| {
      assert book[i..][0] == book[i] && book[i..][1..] == book[i + 1..];
      TakeFront(book[i..], n);
      TakeNothing(book[i + 1..], 0.0);
      TradeValueAdds(market, takeType, order.tradePrice, q, n, Proceeds(book[i + 1..], n - q), Proceeds(book[i..], n));
    } else {
      TakeNothing(book[i..], n);
      PaddingIsFree(market, takeType);
      TradeValueAdds(market, takeType, order.tradePrice, n, n, 0.0, 0.0);
      NoValue(market, takeType, book);
    }
  }

  lemma PaddingIsFree(market: Market, takeType: TakeType)
    ensures GetSharePrice(market, takeType, PaddingPrice(market, takeType)) == 0.0
  {
  }

  // ---------------------------------------------------------------- the spread percent

  function SumQuantity(orders: seq<QuantityAtPrice>): real
    reads orders
  {
    if |orders| == 0 then 0.0 else orders[0].quantity + SumQuantity(orders[1..])
  }

  lemma {:induction false} SumQuantityIsTotal(market: Market, takeType: TakeType, orders: seq<QuantityAtPrice>)
    ensures SumQuantity(orders) == TotalQuantity(Levels(market, takeType, orders))
  {
    if orders != [] {
      SumQuantityIsTotal(market, takeType, orders[1..]);
      assert Levels(market, takeType, orders)[1..] == Levels(market, takeType, orders[1..]);
    }
  }

  /** How many complete sets the spread is measured on; one if that comes to zero. */
  function NumShares(askQuantity: real, bidQuantity: real, percentIncluded: real): real {
    var n := Max(askQuantity, bidQuantity) * percentIncluded;
    if n == 0.0 then 1.0 else n
  }

  /** The sets measured are the included share of each side at least, and exactly that of one of them; or one set when
      that comes to nothing. */
  predicate Covers(n: real, percentIncluded: real, askQuantity: real, bidQuantity: real) {
    && percentIncluded * askQuantity <= n && percentIncluded * bidQuantity <= n
    && (n == percentIncluded * askQuantity || n == percentIncluded * bidQuantity
        || (percentIncluded * askQuantity == 0.0 == percentIncluded * bidQuantity && n == 1.0))
  }

  lemma SharesMeasured(askQuantity: real, bidQuantity: real, percentIncluded: real)
    requires 0.0 <= percentIncluded && 0.0 <= askQuantity && 0.0 <= bidQuantity
    ensures Covers(NumShares(askQuantity, bidQuantity, percentIncluded), percentIncluded, askQuantity, bidQuantity)
  {
    ScaleLe(0.0, askQuantity, percentIncluded);
    ScaleLe(0.0, bidQuantity, percentIncluded);
    ScaleLe(askQuantity, Max(askQuantity, bidQuantity), percentIncluded);
    ScaleLe(bidQuantity, Max(askQuantity, bidQuantity), percentIncluded);
  }

  /** The value of all orders over the cost of `n` complete sets. */
  function WholeBookReturn(market: Market, bids: seq<Offer>, asks: seq<Offer>, n: real): real
    requires market.minPrice < market.maxPrice && 0.0 < n
  {
    ScaleLt(0.0, market.maxPrice - market.minPrice, n);
    (BidValue(market, bids) + AskValue(market, asks)) / ((market.maxPrice - market.minPrice) * n)
  }

  /** Measured on the whole larger side, the return is that of all orders. */
  lemma WholeBookIsMeasured(market: Market, bids: seq<QuantityAtPrice>, asks: seq<QuantityAtPrice>)
    requires market.minPrice < market.maxPrice
    requires Ranked(Levels(market, Long, bids)) && Ranked(Levels(market, Short, asks))
    ensures var n := NumShares(SumQuantity(asks), SumQuantity(bids), 1.0);
      && 0.0 < n && 0.0 < market.DisplayRange()
      && FeeFreeReturn(market.DisplayRange(), Levels(market, Long, bids), Levels(market, Short, asks), n)
         == WholeBookReturn(market, Offers(bids), Offers(asks), n)
  {
    hide Proceeds, Remaining, TotalQuantity, SumQuantity, Ranked, Levels, Offers, BidValue, AskValue, BookValue,
         NumShares, FeeFreeReturn, WholeBookReturn, Market.DisplayRange, Max, Covers;
    RangeIsPositive(market);
    SumQuantityIsTotal(market, Short, asks);
    SumQuantityIsTotal(market, Long, bids);
    RemainingQuantity(Levels(market, Short, asks), 0.0);
    RemainingQuantity(Levels(market, Long, bids), 0.0);
    SomeShares(SumQuantity(asks), SumQuantity(bids), 1.0);
    CoversAll(SumQuantity(asks), SumQuantity(bids));
    var n := NumShares(SumQuantity(asks), SumQuantity(bids), 1.0);
    ProceedsOfAll(Levels(market, Long, bids), n);
    ProceedsOfAll(Levels(market, Short, asks), n);
    BookValueOfOffers(market, bids);
    BookValueOfOffers(market, asks);
    FeeFreeReturnIs(market, Levels(market, Long, bids), Levels(market, Short, asks), n, Offers(bids), Offers(asks));
  }

  lemma CoversAll(askQuantity: real, bidQuantity: real)
    requires 0.0 <= askQuantity && 0.0 <= bidQuantity
    ensures var n := NumShares(askQuantity, bidQuantity, 1.0); askQuantity <= n && bidQuantity <= n
  {
    SharesMeasured(askQuantity, bidQuantity, 1.0);
  }

  lemma RangeIsPositive(market: Market)
    ensures market.minPrice < market.maxPrice <==> 0.0 < market.DisplayRange()
  {
  }

  lemma FeeFreeReturnIs(market: Market, bids: seq<Level>, asks: seq<Level>, n: real, bidOffers: seq<Offer>,
      askOffers: seq<Offer>)
    requires market.minPrice < market.maxPrice && 0.0 < n
    requires Proceeds(bids, n) == BidValue(market, bidOffers) && Proceeds(asks, n) == AskValue(market, askOffers)
    ensures FeeFreeReturn(market.DisplayRange(), bids, asks, n) == WholeBookReturn(market, bidOffers, askOffers, n)
  {
    hide Proceeds, BidValue, AskValue;
  }

  /** Tokens earned, without fees, by selling `n` complete sets into the book, per token those sets cost. */
  function FeeFreeReturn(displayRange: real, bids: seq<Level>, asks: seq<Level>, n: real): real
    requires 0.0 < displayRange && 0.0 < n
  {
    var cost := displayRange * n;
    ScaleLt(0.0, displayRange, n);
    (Proceeds(bids, n) + Proceeds(asks, n)) / cost
  }

  /** The spread percent is one minus the fee-free return on selling complete sets, floored at zero. */
  method GetOutcomeSpread(market: Market, bids: seq<QuantityAtPrice>, asks: seq<QuantityAtPrice>, percentIncluded: real)
    returns (spreadPercent: real, numShares: real)
    requires market.minPrice < market.maxPrice && 0.0 <= percentIncluded
    requires Ranked(Levels(market, Long, bids)) && Ranked(Levels(market, Short, asks))
    ensures numShares == NumShares(
        TotalQuantity(Levels(market, Short, asks)), TotalQuantity(Levels(market, Long, bids)), percentIncluded)
    ensures 0.0 < numShares
    ensures Covers(numShares, percentIncluded, SumQuantity(asks), SumQuantity(bids))
    ensures percentIncluded == 1.0 ==>
      spreadPercent == Max(0.0, 1.0 - WholeBookReturn(market, Offers(bids), Offers(asks), numShares))
    ensures 0.0 <= spreadPercent <= 1.0
    ensures spreadPercent ==
      var bidLevels, askLevels := Levels(market, Long, bids), Levels(market, Short, asks);
      Max(0.0, 1.0 - FeeFreeReturn(market.DisplayRange(), bidLevels, askLevels, numShares))
  {
    hide Proceeds, Remaining, TotalQuantity, SumQuantity, Ranked, Levels, Offers, BidValue, AskValue, NumShares,
         PaddedPrice, Covers, WholeBookReturn, TradeValue, FeeFreeReturn, Market.DisplayRange;
    RangeIsPositive(market);
    SumQuantityIsTotal(market, Short, asks);
    SumQuantityIsTotal(market, Long, bids);
    RemainingQuantity(Levels(market, Short, asks), 0.0);
    RemainingQuantity(Levels(market, Long, bids), 0.0);
    SomeShares(SumQuantity(asks), SumQuantity(bids), percentIncluded);
    SharesMeasured(SumQuantity(asks), SumQuantity(bids), percentIncluded);
    if percentIncluded == 1.0 { WholeBookIsMeasured(market, bids, asks); }
    numShares := NumShares(SumQuantity(asks), SumQuantity(bids), percentIncluded);
    var bidValue := TakeFromBidsOrAsks(market, bids, Long, numShares);
    var askValue := TakeFromBidsOrAsks(market, asks, Short, numShares);
    ScaleLt(0.0, market.DisplayRange(), numShares);
    SpreadIsLostReturn(market, Levels(market, Long, bids), Levels(market, Short, asks), numShares, askValue, bidValue);
    ReturnNonnegative(market.DisplayRange(), Levels(market, Long, bids), Levels(market, Short, asks), numShares);
    var tmpSpreadPercent := (askValue - bidValue) / (market.DisplayRange() * numShares);
    spreadPercent := if tmpSpreadPercent < 0.0 then 0.0 else tmpSpreadPercent;
  }

  lemma ReturnNonnegative(displayRange: real, bids: seq<Level>, asks: seq<Level>, n: real)
    requires 0.0 < displayRange && 0.0 < n && Ranked(bids) && Ranked(asks)
    ensures 0.0 <= FeeFreeReturn(displayRange, bids, asks, n)
  {
    hide Proceeds, Remaining;
    ProceedsRise(bids, BestSharePrice(bids), 0.0, n);
    ProceedsRise(asks, BestSharePrice(asks), 0.0, n);
    TakeNothing(bids, 0.0);
    TakeNothing(asks, 0.0);
    ScaleLt(0.0, displayRange, n);
    DivideCompare(Proceeds(bids, n) + Proceeds(asks, n), displayRange * n, 0.0);
  }

  lemma SpreadIsLostReturn(market: Market, bids: seq<Level>, asks: seq<Level>, n: real, askValue: real, bidValue: real)
    requires 0.0 < market.DisplayRange() && 0.0 < n && market.DisplayRange() * n != 0.0
    requires askValue == TradeValue(market, Short, n, Proceeds(asks, n))
    requires bidValue == TradeValue(market, Long, n, Proceeds(bids, n))
    ensures (askValue - bidValue) / (market.DisplayRange() * n)
        == 1.0 - FeeFreeReturn(market.DisplayRange(), bids, asks, n)
  {
    hide Proceeds;
    var earned, cost := Proceeds(bids, n) + Proceeds(asks, n), market.DisplayRange() * n;
    assert cost == n * market.maxPrice - n * market.minPrice;
    OneMinusQuotient(cost - earned, earned, cost);
  }

  lemma OneMinusQuotient(x: real, y: real, c: real)
    requires c != 0.0 && x == c - y
    ensures x / c == 1.0 - y / c
  {
    DivideTimes(x, c);
    DivideTimes(y, c);
    Cancel(x / c + y / c, 1.0, c);
  }

  lemma SomeShares(askQuantity: real, bidQuantity: real, percentIncluded: real)
    requires 0.0 <= percentIncluded && 0.0 <= askQuantity && 0.0 <= bidQuantity
    ensures 0.0 < NumShares(askQuantity, bidQuantity, percentIncluded)
  {
    ScaleLe(0.0, percentIncluded, Max(askQuantity, bidQuantity));
  }

  /** No bid is above any ask. */
  predicate Uncrossed(displayRange: real, bids: seq<Level>, asks: seq<Level>) {
    forall i, j :: 0 <= i < |bids| && 0 <= j < |asks| ==> bids[i].sharePrice + asks[j].sharePrice <= displayRange
  }

  /** Every share price is at most the display range: all trade prices lie between the market's bounds. */
  predicate WithinBounds(displayRange: real, book: seq<Level>) {
    forall i :: 0 <= i < |book| ==> book[i].sharePrice <= displayRange
  }

  function BestSharePrice(book: seq<Level>): real {
    if book == [] then 0.0 else book[0].sharePrice
  }

  /** On an uncrossed book the return lies between zero and one, so the floor never applies; and the spread is at
      least the gap between the best bid and the best ask. */
  lemma UncrossedReturn(displayRange: real, bids: seq<Level>, asks: seq<Level>, n: real)
    requires 0.0 < displayRange && 0.0 < n && Ranked(bids) && Ranked(asks)
    requires Uncrossed(displayRange, bids, asks) && WithinBounds(displayRange, bids) && WithinBounds(displayRange, asks)
    ensures 0.0 <= FeeFreeReturn(displayRange, bids, asks, n)
         <= (BestSharePrice(bids) + BestSharePrice(asks)) / displayRange <= 1.0
  {
    hide Proceeds, Remaining;
    var b, a := BestSharePrice(bids), BestSharePrice(asks);
    ProceedsRise(bids, b, 0.0, n);
    ProceedsRise(asks, a, 0.0, n);
    TakeNothing(bids, 0.0);
    TakeNothing(asks, 0.0);
    ReturnBound(Proceeds(bids, n), Proceeds(asks, n), b, a, n, displayRange);
  }

  lemma ReturnBound(long: real, short: real, b: real, a: real, n: real, range: real)
    requires 0.0 <= long <= b * n && 0.0 <= short <= a * n && 0.0 < n && 0.0 < range && b + a <= range
    ensures range * n != 0.0 && 0.0 <= (long + short) / (range * n) <= (b + a) / range <= 1.0
  {
    var cost, s := range * n, (b + a) / range;
    ScaleLt(0.0, range, n);
    DivideTimes(b + a, range);
    assert s * cost == (s * range) * n;
    DivideCompare(long + short, cost, s);
    DivideCompare(long + short, cost, 0.0);
    DivideCompare(b + a, range, 1.0);
  }

  /** A book with no shares in it is measured on one complete set, earns nothing and so has a spread of one. */
  lemma EmptyBookSpread(displayRange: real, bids: seq<Level>, asks: seq<Level>, percentIncluded: real)
    requires 0.0 < displayRange && Ranked(bids) && Ranked(asks)
    requires TotalQuantity(bids) == 0.0 && TotalQuantity(asks) == 0.0
    ensures NumShares(TotalQuantity(asks), TotalQuantity(bids), percentIncluded) == 1.0
    ensures FeeFreeReturn(displayRange, bids, asks, 1.0) == 0.0
  {
    NothingToEarn(bids, 1.0);
    NothingToEarn(asks, 1.0);
  }

  lemma {:induction false} NothingToEarn(book: seq<Level>, n: real)
    requires Ranked(book) && TotalQuantity(book) == 0.0
    ensures Proceeds(book, n) == 0.0
    decreases |book|
  {
    if book != [] {
      RemainingQuantity(book[1..], 0.0);
      NothingToEarn(book[1..], n);
    }
  }
}
