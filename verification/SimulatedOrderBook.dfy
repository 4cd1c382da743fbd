/** The simulated order book: taking the best orders from one side, in place. */
module SimulatedOrderBook {
  import opened FinancialMath
  import opened RealMath

  /** An order of the book: the source's mutable quantity-at-price record. */
  class QuantityAtPrice {
    var quantity: real
    const tradePrice: real

    constructor (quantity: real, tradePrice: real)
      ensures this.quantity == quantity && this.tradePrice == tradePrice
    {
      this.quantity, this.tradePrice := quantity, tradePrice;
    }
  }

  /** What an order offers the taker at one moment: a quantity, and the tokens earned per share. */
  datatype Level = Level(quantity: real, sharePrice: real)

  /** Which position the taker closes: a long takes bids, a short takes asks. */
  type TakeType = p: PositionType | p != Closed witness Long

  /** What `orders` offer in the current state. */
  ghost function Levels(market: Market, takeType: TakeType, orders: seq<QuantityAtPrice>): seq<Level>
    reads orders
  {
    seq(|orders|, i requires 0 <= i < |orders| reads orders =>
      Level(orders[i].quantity, GetSharePrice(market, takeType, orders[i].tradePrice)))
  }

  ghost predicate Distinct(orders: seq<QuantityAtPrice>) {
    forall i, j :: 0 <= i < j < |orders| ==> orders[i] != orders[j]
  }

  /** Tokens earned by taking up to `amount` shares from the front of the book. */
  function Proceeds(book: seq<Level>, amount: real): real {
    if amount <= 0.0 || book == [] then 0.0
    else if book[0].quantity > amount then MultipliedBy(amount, book[0].sharePrice)
    else MultipliedBy(book[0].quantity, book[0].sharePrice) + Proceeds(book[1..], amount - book[0].quantity)
  }

  /** The book left behind by taking up to `amount` shares from its front. */
  function Remaining(book: seq<Level>, amount: real): seq<Level> {
    if amount <= 0.0 || book == [] then book
    else if book[0].quantity > amount then [book[0].(quantity := book[0].quantity - amount)] + book[1..]
    else Remaining(book[1..], amount - book[0].quantity)
  }

  // ---------------------------------------------------------------- the orders themselves

  /** An order as it is placed: a quantity at a trade price. */
  datatype Offer = Offer(quantity: real, tradePrice: real)

  ghost function Offers(orders: seq<QuantityAtPrice>): seq<Offer>
    reads orders
  {
    seq(|orders|, i requires 0 <= i < |orders| reads orders => Offer(orders[i].quantity, orders[i].tradePrice))
  }

  /** Shares that change hands when up to `amount` are taken, first offers first. */
  function SharesFilled(offers: seq<Offer>, amount: real): real {
    if amount <= 0.0 || offers == [] then 0.0
    else
      var s := Min(offers[0].quantity, amount);
      s + SharesFilled(offers[1..], amount - s)
  }

  /** What those shares change hands for, each at the trade price of its own offer. */
  function PriceFilled(offers: seq<Offer>, amount: real): real {
    if amount <= 0.0 || offers == [] then 0.0
    else
      var s := Min(offers[0].quantity, amount);
      MultipliedBy(s, offers[0].tradePrice) + PriceFilled(offers[1..], amount - s)
  }

  /** What shares that change hands for `price` earn: above the minimum price when sold, below the maximum price when
      bought. */
  function EarnedFor(market: Market, takeType: TakeType, price: real, shares: real): real {
    if takeType == Long then price - shares * market.minPrice else shares * market.maxPrice - price
  }

  lemma EarnedForAdds(market: Market, takeType: TakeType, tradePrice: real, s: real, price: real, shares: real)
    ensures MultipliedBy(s, GetSharePrice(market, takeType, tradePrice)) + EarnedFor(market, takeType, price, shares)
         == EarnedFor(market, takeType, MultipliedBy(s, tradePrice) + price, s + shares)
  {
    if takeType == Long {
      assert s * (tradePrice - market.minPrice) == s * tradePrice - s * market.minPrice;
      assert (s + shares) * market.minPrice == s * market.minPrice + shares * market.minPrice;
    } else {
      assert s * (market.maxPrice - tradePrice) == s * market.maxPrice - s * tradePrice;
      assert (s + shares) * market.maxPrice == s * market.maxPrice + shares * market.maxPrice;
    }
  }

  lemma NothingEarned(market: Market, takeType: TakeType, orders: seq<QuantityAtPrice>, amount: real)
    requires orders == [] || amount <= 0.0
    ensures Proceeds(Levels(market, takeType, orders), amount) == 0.0
    ensures SharesFilled(Offers(orders), amount) == 0.0 == PriceFilled(Offers(orders), amount)
    ensures EarnedFor(market, takeType, 0.0, 0.0) == 0.0
  {
  }

  lemma FrontOffer(orders: seq<QuantityAtPrice>)
    requires orders != []
    ensures Offers(orders) == [Offer(orders[0].quantity, orders[0].tradePrice)] + Offers(orders[1..])
  {
  }

  /** Proceeds in terms of the orders themselves. */
  lemma {:induction false} ProceedsOfOffers(
    market: Market, takeType: TakeType, orders: seq<QuantityAtPrice>, amount: real)
    ensures Proceeds(Levels(market, takeType, orders), amount) == EarnedFor(market, takeType,
        PriceFilled(Offers(orders), amount), SharesFilled(Offers(orders), amount))
  {
    hide Levels, Offers, Proceeds, PriceFilled, SharesFilled, EarnedFor, MultipliedBy, GetSharePrice;
    if orders == [] || amount <= 0.0 {
      NothingEarned(market, takeType, orders, amount);
    } else {
      var book, offers := Levels(market, takeType, orders), Offers(orders);
      var s := Min(orders[0].quantity, amount);
      FrontLevel(market, takeType, orders);
      FrontOffer(orders);
      ProceedsOfOffers(market, takeType, orders[1..], amount - s);
      OneOffer(book, offers, amount);
      assert book[1..] == Levels(market, takeType, orders[1..]) && offers[1..] == Offers(orders[1..]);
      EarnedForAdds(market, takeType, orders[0].tradePrice, s,
                    PriceFilled(offers[1..], amount - s), SharesFilled(offers[1..], amount - s));
    }
  }

  lemma SaleEarns(market: Market, bids: seq<QuantityAtPrice>, amount: real)
    ensures Proceeds(Levels(market, Long, bids), amount)
         == PriceFilled(Offers(bids), amount) - SharesFilled(Offers(bids), amount) * market.minPrice
  {
    ProceedsOfOffers(market, Long, bids, amount);
  }

  lemma BuyEarns(market: Market, asks: seq<QuantityAtPrice>, amount: real)
    ensures Proceeds(Levels(market, Short, asks), amount)
         == SharesFilled(Offers(asks), amount) * market.maxPrice - PriceFilled(Offers(asks), amount)
  {
    ProceedsOfOffers(market, Short, asks, amount);
  }

  lemma OneOffer(book: seq<Level>, offers: seq<Offer>, amount: real)
    requires book != [] && offers != [] && offers[0].quantity == book[0].quantity && 0.0 < amount
    ensures var s := Min(offers[0].quantity, amount);
      && Proceeds(book, amount) == MultipliedBy(s, book[0].sharePrice) + Proceeds(book[1..], amount - s)
      && SharesFilled(offers, amount) == s + SharesFilled(offers[1..], amount - s)
      && PriceFilled(offers, amount) == MultipliedBy(s, offers[0].tradePrice) + PriceFilled(offers[1..], amount - s)
  {
    hide MultipliedBy;
    if book[0].quantity > amount {
      assert Proceeds(book[1..], 0.0) == 0.0;
    }
  }

  /** Never more shares than are offered, nor than are asked for, and as many as both allow. */
  lemma {:induction false} SharesFilledIs(offers: seq<Offer>, amount: real)
    requires forall i :: 0 <= i < |offers| ==> 0.0 <= offers[i].quantity
    requires 0.0 <= amount
    ensures SharesFilled(offers, amount) == Min(amount, SumOffered(offers)) && 0.0 <= SumOffered(offers)
    decreases |offers|
  {
    if offers != [] {
      SharesFilledIs(offers[1..], amount - Min(offers[0].quantity, amount));
    }
  }

  function SumOffered(offers: seq<Offer>): real {
    if offers == [] then 0.0 else offers[0].quantity + SumOffered(offers[1..])
  }

  // ---------------------------------------------------------------- taking from the book

  /** One step of the walk: the front level covers the amount, or is used up. */
  lemma TakeFront(book: seq<Level>, amount: real)
    requires book != [] && 0.0 < amount
    ensures var front := book[0];
      if front.quantity > amount then
        && Proceeds(book, amount) == amount * front.sharePrice
        && Remaining(book, amount) == [Level(front.quantity - amount, front.sharePrice)] + book[1..]
      else
        && Proceeds(book, amount) == front.quantity * front.sharePrice + Proceeds(book[1..], amount - front.quantity)
        && Remaining(book, amount) == Remaining(book[1..], amount - front.quantity)
  {
  }

  lemma TakeNothing(book: seq<Level>, amount: real)
    requires amount <= 0.0 || book == []
    ensures Proceeds(book, amount) == 0.0 && Remaining(book, amount) == book
  {
  }

  lemma TakeStep(book: seq<Level>, amount: real, quantity: real, sharePrice: real)
    requires book != [] && 0.0 < amount && book[0] == Level(quantity, sharePrice)
    ensures
      if quantity > amount then
        && Proceeds(book, amount) == MultipliedBy(amount, sharePrice)
        && Remaining(book, amount) == [Level(quantity - amount, sharePrice)] + book[1..]
      else
        && Proceeds(book, amount) == MultipliedBy(quantity, sharePrice) + Proceeds(book[1..], amount - quantity)
        && Remaining(book, amount) == Remaining(book[1..], amount - quantity)
  {
    hide MultipliedBy;
  }

  /** The first order and the rest of them, level by level. */
  lemma FrontLevel(market: Market, takeType: TakeType, orders: seq<QuantityAtPrice>)
    requires orders != []
    ensures Levels(market, takeType, orders)
         == [Level(orders[0].quantity, GetSharePrice(market, takeType, orders[0].tradePrice))]
             + Levels(market, takeType, orders[1..])
  {
    hide GetSharePrice;
  }

  lemma NoLevels(market: Market, takeType: TakeType)
    ensures Levels(market, takeType, []) == []
  {
  }

  lemma RestIsApart(orders: seq<QuantityAtPrice>, k: nat)
    requires Distinct(orders) && k < |orders|
    ensures orders[k] !in orders[k + 1..]
  {
  }

  /** Takes up to `amountToTake` from the best orders. Consumed orders are emptied and dropped and the last
      one touched is reduced in place, unless this is a dry run. */
  method TakeBest(market: Market, orders: seq<QuantityAtPrice>, amountToTake: real, takeType: TakeType, dryRun: bool)
    returns (newOrders: seq<QuantityAtPrice>, proceeds: real)
    requires Distinct(orders)
    modifies orders
    ensures proceeds == Proceeds(old(Levels(market, takeType, orders)), amountToTake)
    ensures |newOrders| <= |orders| && newOrders == orders[|orders| - |newOrders|..]
    ensures dryRun ==> Levels(market, takeType, orders) == old(Levels(market, takeType, orders))
    ensures !dryRun ==>
        Levels(market, takeType, newOrders) == Remaining(old(Levels(market, takeType, orders)), amountToTake)
    ensures !dryRun ==> forall i :: 0 <= i < |orders| - |newOrders| ==> orders[i].quantity == 0.0
  {
    hide Proceeds, Remaining, GetSharePrice, MultipliedBy, Levels, Distinct;
    newOrders, proceeds := orders, 0.0;
    var sharesRemaining := amountToTake;
    ghost var book := Levels(market, takeType, orders);
    ghost var rest, k := book, 0;
    while sharesRemaining > 0.0
      invariant 0 <= k <= |orders| && newOrders == orders[k..]
      invariant Levels(market, takeType, newOrders) == rest
      invariant dryRun ==> Levels(market, takeType, orders) == book
      invariant !dryRun ==> forall i :: 0 <= i < k ==> orders[i].quantity == 0.0
      invariant proceeds + Proceeds(rest, sharesRemaining) == Proceeds(book, amountToTake)
      invariant Remaining(rest, sharesRemaining) == Remaining(book, amountToTake)
      decreases |orders| - k
    {
      if |newOrders| < 1 {
        NoLevels(market, takeType);
        break;
      }
      var sharePrice := GetSharePrice(market, takeType, newOrders[0].tradePrice);
      ghost var tail := Levels(market, takeType, newOrders[1..]);
      FrontLevel(market, takeType, newOrders);
      RestIsApart(orders, k);
      assert newOrders[1..] == orders[k + 1..] && rest[1..] == tail;
      TakeStep(rest, sharesRemaining, newOrders[0].quantity, sharePrice);
      if newOrders[0].quantity > sharesRemaining {
        proceeds := proceeds + MultipliedBy(sharesRemaining, sharePrice);
        if !dryRun {
          newOrders[0].quantity := newOrders[0].quantity - sharesRemaining;
          FrontLevel(market, takeType, newOrders);
        }
        return;
      }
      proceeds := proceeds + MultipliedBy(newOrders[0].quantity, sharePrice);
      sharesRemaining := sharesRemaining - newOrders[0].quantity;
      if !dryRun {
        newOrders[0].quantity := 0.0;
      }
      newOrders, rest, k := newOrders[1..], tail, k + 1;
    }
    TakeNothing(rest, sharesRemaining);
  }

  /** One outcome's order book. */
  class OrderBook {
    const market: Market
    var bids: seq<QuantityAtPrice>
    var asks: seq<QuantityAtPrice>

    /** No order object occurs twice, on one side or on both. */
    ghost predicate Valid()
      reads this
    {
      && Distinct(bids) && Distinct(asks)
      && forall i, j :: 0 <= i < |bids| && 0 <= j < |asks| ==> bids[i] != asks[j]
    }

    ghost function BidLevels(): seq<Level>
      reads this, bids
    {
      Levels(market, Long, bids)
    }

    ghost function AskLevels(): seq<Level>
      reads this, asks
    {
      Levels(market, Short, asks)
    }

    constructor (market: Market, bids: seq<QuantityAtPrice>, asks: seq<QuantityAtPrice>)
      requires Distinct(bids) && Distinct(asks)
      requires forall i, j :: 0 <= i < |bids| && 0 <= j < |asks| ==> bids[i] != asks[j]
      ensures Valid() && this.market == market && this.bids == bids && this.asks == asks
    {
      this.market, this.bids, this.asks := market, bids, asks;
    }

    /** Sells shares into the bids. */
    method CloseLongFillOnly(quantityToSell: real, dryRun: bool) returns (proceeds: real)
      requires Valid()
      modifies this`bids, bids
      ensures Valid() && |bids| <= |old(bids)| && bids == old(bids)[|old(bids)| - |bids|..]
      ensures proceeds == PriceFilled(old(Offers(bids)), quantityToSell)
                        - SharesFilled(old(Offers(bids)), quantityToSell) * market.minPrice
      ensures proceeds == Proceeds(old(BidLevels()), quantityToSell)
      ensures BidLevels() == if dryRun then old(BidLevels()) else Remaining(old(BidLevels()), quantityToSell)
      ensures AskLevels() == old(AskLevels())
    {
      hide Proceeds, Remaining, GetSharePrice, PriceFilled, SharesFilled, Levels, Offers;
      SaleEarns(market, bids, quantityToSell);
      var newBids, p := TakeBest(market, bids, quantityToSell, Long, dryRun);
      if !dryRun {
        bids := newBids;
      }
      proceeds := p;
    }

    /** Buys shares from the asks, closing a short. */
    method CloseShortFillOnly(quantityToSell: real, dryRun: bool) returns (proceeds: real)
      requires Valid()
      modifies this`asks, asks
      ensures Valid() && |asks| <= |old(asks)| && asks == old(asks)[|old(asks)| - |asks|..]
      ensures proceeds == SharesFilled(old(Offers(asks)), quantityToSell) * market.maxPrice
                        - PriceFilled(old(Offers(asks)), quantityToSell)
      ensures proceeds == Proceeds(old(AskLevels()), quantityToSell)
      ensures AskLevels() == if dryRun then old(AskLevels()) else Remaining(old(AskLevels()), quantityToSell)
      ensures BidLevels() == old(BidLevels())
    {
      hide Proceeds, Remaining, GetSharePrice, PriceFilled, SharesFilled, Levels, Offers;
      BuyEarns(market, asks, quantityToSell);
      var newAsks, p := TakeBest(market, asks, quantityToSell, Short, dryRun);
      if !dryRun {
        asks := newAsks;
      }
      proceeds := p;
    }

    /** Long proceeds divided by one minus the fee rate; a fee rate of one would divide by zero. */
    method CloseLongFillOnlyWithFeeAdjustment(quantityToSell: real, feeRate: real,
        dryRun: bool) returns (proceeds: real)
      requires Valid() && feeRate != 1.0
      modifies this`bids, bids
      ensures Valid() && |bids| <= |old(bids)| && bids == old(bids)[|old(bids)| - |bids|..]
      ensures proceeds == (PriceFilled(old(Offers(bids)), quantityToSell)
                           - SharesFilled(old(Offers(bids)), quantityToSell) * market.minPrice) / (1.0 - feeRate)
      ensures proceeds == Proceeds(old(BidLevels()), quantityToSell) / (1.0 - feeRate)
      ensures BidLevels() == if dryRun then old(BidLevels()) else Remaining(old(BidLevels()), quantityToSell)
      ensures AskLevels() == old(AskLevels())
    {
      hide Proceeds, Remaining, GetSharePrice, PriceFilled, SharesFilled, Levels, Offers;
      var p := CloseLongFillOnly(quantityToSell, dryRun);
      proceeds := p / (1.0 - feeRate);
    }

    /** Short proceeds divided by one plus the fee rate; a fee rate of minus one would divide by zero. */
    method CloseShortFillOnlyWithFeeAdjustment(quantityToSell: real, feeRate: real,
        dryRun: bool) returns (proceeds: real)
      requires Valid() && feeRate != -1.0
      modifies this`asks, asks
      ensures Valid() && |asks| <= |old(asks)| && asks == old(asks)[|old(asks)| - |asks|..]
      ensures proceeds == (SharesFilled(old(Offers(asks)), quantityToSell) * market.maxPrice
                           - PriceFilled(old(Offers(asks)), quantityToSell)) / (1.0 + feeRate)
      ensures proceeds == Proceeds(old(AskLevels()), quantityToSell) / (1.0 + feeRate)
      ensures AskLevels() == if dryRun then old(AskLevels()) else Remaining(old(AskLevels()), quantityToSell)
      ensures BidLevels() == old(BidLevels())
    {
      hide Proceeds, Remaining, GetSharePrice, PriceFilled, SharesFilled, Levels, Offers;
      var p := CloseShortFillOnly(quantityToSell, dryRun);
      proceeds := p / (1.0 + feeRate);
    }
  }
}
