/** Laws of taking the best orders: composition, conservation, optimality and falling average price. */
module OrderBookLaws {
  import opened FinancialMath
  import opened RealMath
  import opened SimulatedOrderBook

  /** Nonnegative quantities and share prices, best share price first. */
  predicate Ranked(book: seq<Level>) {
    && (forall i :: 0 <= i < |book| ==> book[i].quantity >= 0.0 && book[i].sharePrice >= 0.0)
    && (forall i, j :: 0 <= i < j < |book| ==> book[i].sharePrice >= book[j].sharePrice)
  }

  function TotalQuantity(book: seq<Level>): real {
    if book == [] then 0.0 else book[0].quantity + TotalQuantity(book[1..])
  }

  /** Taking `a` and then `b` leaves the same book and earns the same as taking `a + b` at once. */
  lemma {:induction false} TakesCompose(book: seq<Level>, a: real, b: real)
    requires 0.0 <= a && 0.0 <= b
    requires forall i :: 0 <= i < |book| ==> book[i].quantity >= 0.0
    ensures Proceeds(book, a) + Proceeds(Remaining(book, a), b) == Proceeds(book, a + b)
    ensures Remaining(Remaining(book, a), b) == Remaining(book, a + b)
    decreases |book|
  {
    hide Proceeds, Remaining;
    if a == 0.0 || book == [] {
      TakeNothing(book, a);
      TakeNothing(book, if book == [] then a + b else a);
      TakeNothing(book, if book == [] then b else a);
    } else if b == 0.0 {
      TakeNothing(Remaining(book, a), b);
    } else if book[0].quantity > a {
      TakeFront(book, a);
      var cut := Remaining(book, a);
      assert cut[0] == Level(book[0].quantity - a, book[0].sharePrice) && cut[1..] == book[1..];
      TakeFront(cut, b);
      TakeFront(book, a + b);
    } else {
      TakeFront(book, a);
      TakeFront(book, a + b);
      TakesCompose(book[1..], a - book[0].quantity, b);
    }
  }

  /** What remains is the total less what was taken, down to nothing. */
  lemma {:induction false} RemainingQuantity(book: seq<Level>, a: real)
    requires 0.0 <= a && Ranked(book)
    ensures TotalQuantity(Remaining(book, a)) == Max(0.0, TotalQuantity(book) - a)
    ensures 0.0 <= TotalQuantity(book)
    decreases |book|
  {
    if book == [] {
    } else if 0.0 < a && book[0].quantity <= a {
      RemainingQuantity(book[1..], a - book[0].quantity);
    } else {
      RemainingQuantity(book[1..], 0.0);
      if 0.0 < a {
        assert Remaining(book, a)[1..] == book[1..];
      }
    }
  }

  /** A ranked book stays ranked, and never offers more than before. */
  lemma {:induction false} RemainingRanked(book: seq<Level>, a: real)
    requires Ranked(book)
    ensures Ranked(Remaining(book, a))
    decreases |book|
  {
    hide Remaining;
    if a <= 0.0 || book == [] { TakeNothing(book, a); } else { TakeFront(book, a); }
    if 0.0 < a && book != [] && book[0].quantity <= a {
      RemainingRanked(book[1..], a - book[0].quantity);
    }
  }

  // ---------------------------------------------------------------- falling average price

  /** A rise of `p` per share inside one level, then at most `p` per share beyond it. */
  lemma RiseBound(p: real, best: real, a: real, mid: real, b: real, beyond: real)
    requires 0.0 <= p <= best && a <= mid <= b
    requires 0.0 <= beyond <= p * (b - mid)
    ensures 0.0 <= mid * p - a * p + beyond <= best * (b - a)
  {
    ScaleLe(p, best, b - a);
    ScaleLe(0.0, p, mid - a);
    assert p * (b - a) == p * (b - mid) + p * (mid - a);
  }

  lemma TakeWithinFront(book: seq<Level>, a: real)
    requires book != [] && 0.0 <= a <= book[0].quantity
    ensures Proceeds(book, a) == a * book[0].sharePrice
  {
    if a == 0.0 { TakeNothing(book, a); } else { TakeFront(book, a); TakeNothing(book[1..], 0.0); }
  }

  predicate RiseIsBounded(book: seq<Level>, best: real, a: real, b: real) {
    0.0 <= Proceeds(book, b) - Proceeds(book, a) <= best * (b - a)
  }

  lemma RiseWithinFront(book: seq<Level>, best: real, a: real, b: real)
    requires book != [] && 0.0 <= book[0].sharePrice <= best && 0.0 <= a <= b <= book[0].quantity
    ensures RiseIsBounded(book, best, a, b)
  {
    hide Proceeds;
    TakeWithinFront(book, a);
    TakeWithinFront(book, b);
    RiseBound(book[0].sharePrice, best, a, b, b, 0.0);
  }

  lemma RiseAcrossFront(book: seq<Level>, best: real, a: real, b: real)
    requires book != [] && 0.0 <= book[0].sharePrice <= best && 0.0 <= a <= book[0].quantity <= b && 0.0 < b
    requires RiseIsBounded(book[1..], book[0].sharePrice, 0.0, b - book[0].quantity)
    ensures RiseIsBounded(book, best, a, b)
  {
    hide Proceeds, Remaining;
    TakeWithinFront(book, a);
    TakeNothing(book[1..], 0.0);
    TakeFront(book, b);
    RiseBound(book[0].sharePrice, best, a, book[0].quantity, b, Proceeds(book[1..], b - book[0].quantity));
  }

  lemma RiseBeyondFront(book: seq<Level>, best: real, a: real, b: real)
    requires book != [] && book[0].sharePrice <= best && 0.0 <= book[0].quantity < a <= b
    requires RiseIsBounded(book[1..], book[0].sharePrice, a - book[0].quantity, b - book[0].quantity)
    ensures RiseIsBounded(book, best, a, b)
  {
    hide Proceeds, Remaining;
    TakeFront(book, a);
    TakeFront(book, b);
    ScaleLe(book[0].sharePrice, best, b - a);
  }

  /** Proceeds never fall, and rise by at most the best share price per share. */
  lemma {:induction false} ProceedsRise(book: seq<Level>, best: real, a: real, b: real)
    requires Ranked(book) && 0.0 <= a <= b && 0.0 <= best
    requires book != [] ==> book[0].sharePrice <= best
    ensures 0.0 <= Proceeds(book, b) - Proceeds(book, a) <= best * (b - a)
    decreases |book|
  {
    hide Proceeds, Remaining;
    if book == [] || b == 0.0 {
      TakeNothing(book, a);
      TakeNothing(book, b);
      ScaleLe(0.0, best, b - a);
    } else {
      var q, p := book[0].quantity, book[0].sharePrice;
      if q > b {
        RiseWithinFront(book, best, a, b);
      } else if q < a {
        ProceedsRise(book[1..], p, a - q, b - q);
        RiseBeyondFront(book, best, a, b);
      } else {
        ProceedsRise(book[1..], p, 0.0, b - q);
        RiseAcrossFront(book, best, a, b);
      }
    }
  }

  /** The arithmetic of one level used up: `va` and `vb` are earned beyond it. */
  lemma AverageStep(p: real, q: real, a: real, b: real, va: real, vb: real)
    requires 0.0 <= q <= a <= b
    requires vb * (a - q) <= va * (b - q) && vb - va <= p * (b - a)
    ensures (q * p + vb) * a <= (q * p + va) * b
  {
    ScaleLe(vb - va, p * (b - a), q);
    assert (q * p + vb) * a - (q * p + va) * b == (vb * (a - q) - va * (b - q)) + (q * (vb - va) - q * (p * (b - a)));
  }

  /** The average earned per share never rises with the amount sold: the book gives its best prices first. */
  lemma {:induction false} AverageFalls(book: seq<Level>, a: real, b: real)
    requires Ranked(book) && 0.0 <= a <= b
    ensures Proceeds(book, b) * a <= Proceeds(book, a) * b
    decreases |book|
  {
    hide Proceeds, Remaining;
    if book == [] || a == 0.0 {
      TakeNothing(book, a);
      TakeNothing(book, if book == [] then b else 0.0);
    } else {
      var q, p := book[0].quantity, book[0].sharePrice;
      TakeFront(book, a);
      TakeFront(book, b);
      if q > a {
        ProceedsRise(book, p, 0.0, b);
        TakeNothing(book, 0.0);
        ScaleLe(Proceeds(book, b), p * b, a);
        assert (p * b) * a == (a * p) * b;
      } else {
        AverageFalls(book[1..], a - q, b - q);
        ProceedsRise(book[1..], p, a - q, b - q);
        AverageStep(p, q, a, b, Proceeds(book[1..], a - q), Proceeds(book[1..], b - q));
      }
    }
  }

  /** Successive takes earn less and less per share. */
  lemma MarginFalls(book: seq<Level>, a: real, b: real, c: real)
    requires Ranked(book) && 0.0 <= a <= b <= c
    ensures (Proceeds(book, c) - Proceeds(book, b)) * (b - a) <= (Proceeds(book, b) - Proceeds(book, a)) * (c - b)
  {
    hide Proceeds, Remaining;
    var rest := Remaining(book, a);
    TakesCompose(book, a, b - a);
    TakesCompose(book, a, c - a);
    RemainingRanked(book, a);
    AverageFalls(rest, b - a, c - a);
    MarginStep(Proceeds(rest, b - a), Proceeds(rest, c - a), b - a, c - a);
  }

  lemma MarginStep(vb: real, vc: real, b: real, c: real)
    requires vc * b <= vb * c
    ensures (vc - vb) * b <= vb * (c - b)
  {
  }

  /** The value of the whole book. */
  function BookValue(book: seq<Level>): real {
    if book == [] then 0.0 else book[0].quantity * book[0].sharePrice + BookValue(book[1..])
  }

  /** Asking for at least everything earns the value of the whole book. */
  lemma {:induction false} ProceedsOfAll(book: seq<Level>, amount: real)
    requires Ranked(book) && TotalQuantity(book) <= amount
    ensures Proceeds(book, amount) == BookValue(book)
    decreases |book|
  {
    if book != [] {
      RemainingQuantity(book[1..], 0.0);
      if amount == 0.0 {
        ProceedsOfAll(book[1..], 0.0);
        TakeNothing(book[1..], 0.0);
        assert book[0].quantity == 0.0;
      } else {
        ProceedsOfAll(book[1..], amount - book[0].quantity);
        TakeFront(book, amount);
      }
    }
  }

  /** The value of a side's orders: of bids above the minimum price, of asks below the maximum price. */
  function BidValue(market: Market, offers: seq<Offer>): real {
    if offers == [] then 0.0
    else offers[0].quantity * (offers[0].tradePrice - market.minPrice) + BidValue(market, offers[1..])
  }

  function AskValue(market: Market, offers: seq<Offer>): real {
    if offers == [] then 0.0
    else offers[0].quantity * (market.maxPrice - offers[0].tradePrice) + AskValue(market, offers[1..])
  }

  /** The value of a book is that of its orders. */
  lemma {:induction false} BookValueOfOffers(market: Market, orders: seq<QuantityAtPrice>)
    ensures BookValue(Levels(market, Long, orders)) == BidValue(market, Offers(orders))
    ensures BookValue(Levels(market, Short, orders)) == AskValue(market, Offers(orders))
  {
    hide Levels, Offers;
    if orders == [] {
      NoLevels(market, Long);
      NoLevels(market, Short);
      NoOffers();
    } else {
      BookValueOfOffers(market, orders[1..]);
      FrontLevel(market, Long, orders);
      FrontLevel(market, Short, orders);
      FrontOffer(orders);
      assert Levels(market, Long, orders)[1..] == Levels(market, Long, orders[1..]);
      assert Levels(market, Short, orders)[1..] == Levels(market, Short, orders[1..]);
      assert Offers(orders)[1..] == Offers(orders[1..]);
    }
  }

  lemma NoOffers()
    ensures Offers([]) == []
  {
  }

  // ---------------------------------------------------------------- best orders are the best choice

  /** Shares taken from each level, in any way at all. */
  ghost predicate IsAllocation(book: seq<Level>, shares: seq<real>) {
    |shares| == |book| && forall i :: 0 <= i < |book| ==> 0.0 <= shares[i] <= book[i].quantity
  }

  function SharesTaken(shares: seq<real>): real {
    if shares == [] then 0.0 else shares[0] + SharesTaken(shares[1..])
  }

  function AllocationValue(book: seq<Level>, shares: seq<real>): real
    requires |shares| == |book|
  {
    if book == [] then 0.0 else shares[0] * book[0].sharePrice + AllocationValue(book[1..], shares[1..])
  }

  /** No way of taking at most `amount` shares from the book earns more than taking the best orders first. */
  lemma {:induction false} BestFirstIsOptimal(book: seq<Level>, shares: seq<real>, amount: real)
    requires Ranked(book) && IsAllocation(book, shares) && SharesTaken(shares) <= amount
    ensures 0.0 <= SharesTaken(shares)
    ensures AllocationValue(book, shares) <= Proceeds(book, amount)
    decreases |book|
  {
    hide Proceeds, Remaining;
    if book == [] {
      TakeNothing(book, amount);
    } else {
      var p, s, rest := book[0].sharePrice, shares[0], book[1..];
      var best := FromFront(book, amount);
      BestFirstIsOptimal(rest, shares[1..], amount - s);
      ProceedsFromFront(book, amount);
      if amount <= 0.0 {
        TakeNothing(rest, amount - s);
      } else {
        ProceedsRise(rest, p, amount - best, amount - s);
        assert p * (amount - s - (amount - best)) == best * p - s * p;
      }
    }
  }

  /** What best-first takes from the front level. */
  function FromFront(book: seq<Level>, amount: real): real
    requires book != []
  {
    if amount <= 0.0 then 0.0 else Min(amount, book[0].quantity)
  }

  /** The allocation that takes the best orders first. */
  function BestFirst(book: seq<Level>, amount: real): (shares: seq<real>)
    ensures |shares| == |book|
  {
    if book == [] then []
    else [FromFront(book, amount)] + BestFirst(book[1..], amount - FromFront(book, amount))
  }

  lemma ProceedsFromFront(book: seq<Level>, amount: real)
    requires book != [] && 0.0 <= book[0].quantity
    ensures var s := FromFront(book, amount);
      && 0.0 <= s <= book[0].quantity && s <= Max(0.0, amount)
      && Proceeds(book, amount) == s * book[0].sharePrice + Proceeds(book[1..], amount - s)
      && BestFirst(book, amount) == [s] + BestFirst(book[1..], amount - s)
  {
    hide Proceeds, Remaining;
    if amount <= 0.0 {
      TakeNothing(book, amount);
      TakeNothing(book[1..], amount);
      assert FromFront(book, amount) * book[0].sharePrice == 0.0;
    } else if book[0].quantity <= amount {
      TakeFront(book, amount);
    } else {
      TakeFront(book, amount);
      TakeNothing(book[1..], 0.0);
    }
  }

  lemma AllocateFront(book: seq<Level>, s: real, shares: seq<real>)
    requires book != [] && 0.0 <= s <= book[0].quantity && IsAllocation(book[1..], shares)
    ensures IsAllocation(book, [s] + shares)
    ensures SharesTaken([s] + shares) == s + SharesTaken(shares)
    ensures AllocationValue(book, [s] + shares) == s * book[0].sharePrice + AllocationValue(book[1..], shares)
  {
    assert ([s] + shares)[1..] == shares;
    assert forall i :: 0 < i < |book| ==> book[i] == book[1..][i - 1];
  }

  ghost predicate Attains(book: seq<Level>, amount: real) {
    var shares := BestFirst(book, amount);
    && IsAllocation(book, shares)
    && SharesTaken(shares) <= Max(0.0, amount)
    && AllocationValue(book, shares) == Proceeds(book, amount)
  }

  lemma AttainsFromRest(book: seq<Level>, amount: real)
    requires book != [] && 0.0 <= book[0].quantity && Attains(book[1..], amount - FromFront(book, amount))
    ensures Attains(book, amount)
  {
    hide Proceeds, Remaining, AllocationValue, SharesTaken, BestFirst, FromFront, IsAllocation;
    var s := FromFront(book, amount);
    var shares := BestFirst(book[1..], amount - s);
    ProceedsFromFront(book, amount);
    AllocateFront(book, s, shares);
  }

  /** Taking the best orders first is itself such a choice, so its proceeds are the maximum. */
  lemma {:induction false} BestFirstIsAttained(book: seq<Level>, amount: real)
    requires Ranked(book)
    ensures var shares := BestFirst(book, amount);
      && IsAllocation(book, shares)
      && SharesTaken(shares) <= Max(0.0, amount)
      && AllocationValue(book, shares) == Proceeds(book, amount)
    decreases |book|
  {
    hide Proceeds, AllocationValue, SharesTaken, BestFirst, IsAllocation;
    if book == [] {
      TakeNothing(book, amount);
      NoAllocation(book, amount);
    } else {
      BestFirstIsAttained(book[1..], amount - FromFront(book, amount));
      AttainsFromRest(book, amount);
    }
  }

  lemma NoAllocation(book: seq<Level>, amount: real)
    requires book == []
    ensures IsAllocation(book, BestFirst(book, amount))
    ensures SharesTaken(BestFirst(book, amount)) == 0.0 == AllocationValue(book, BestFirst(book, amount))
  {
  }
}
