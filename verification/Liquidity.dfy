/** The liquidity metric: how much can be earned by selling complete sets into the book before the return on them
    falls below what each spread percent allows. */
module Liquidity {
  import opened FinancialMath
  import opened RealMath
  import opened SimulatedOrderBook
  import opened OrderBookLaws

  const MAX_ITERATIONS: nat := 100000
  const ONE_HUNDRED_MILLION: real := 100000000.0

  datatype LiquidityTokensAtSpreadPercent = LiquidityTokensAtSpreadPercent(spreadPercent: real, liquidityTokens: real)

  // ---------------------------------------------------------------- what a run sells and earns

  /** The book a run starts from, and its parameters. */
  datatype Run = Run(bids: seq<Level>, asks: seq<Level>, feeRate: real, completeSetCost: real,
      sellIncrementCost: real) {
    predicate Valid() {
      && Ranked(bids) && Ranked(asks)
      && 0.0 <= feeRate < 1.0 && 0.0 < completeSetCost && 0.0 < sellIncrementCost
    }

    /** Shares sold per base increment. */
    function SellIncrement(): (r: real)
      requires Valid()
      ensures 0.0 < r
    {
      DivideCompare(sellIncrementCost, completeSetCost, 0.0);
      DividedBy(sellIncrementCost, completeSetCost)
    }

    /** Fee-adjusted tokens earned by selling `q` complete sets into the starting book. */
    function Earned(q: real): real
      requires Valid()
    {
      Proceeds(bids, q) / (1.0 - feeRate) + Proceeds(asks, q) / (1.0 + feeRate)
    }

    /** Fee-adjusted value of the whole book. */
    function WholeBook(): real
      requires Valid()
    {
      BookValue(bids) / (1.0 - feeRate) + BookValue(asks) / (1.0 + feeRate)
    }

    function LargerSide(): real {
      Max(TotalQuantity(bids), TotalQuantity(asks))
    }

    function Sold(k: nat): real
      requires Valid()
    {
      Increments(k) * SellIncrement()
    }

    function Cost(k: nat): real {
      Increments(k) * sellIncrementCost
    }

    /** Running total of tokens after `k` iterations. */
    function Tokens(k: nat): real
      requires Valid()
    {
      Earned(Sold(k))
    }
  }

  /** Base increments in iteration `k`, counted from one: one hundred million at a time once past the maximum. */
  function Step(k: nat): real {
    if k > MAX_ITERATIONS then ONE_HUNDRED_MILLION else 1.0
  }

  /** Base increments sold in the first `k` iterations. */
  function Increments(k: nat): real {
    if k <= MAX_ITERATIONS then k as real
    else MAX_ITERATIONS as real + (k - MAX_ITERATIONS) as real * ONE_HUNDRED_MILLION
  }

  lemma IncrementsStep(k: nat)
    ensures Increments(k + 1) == Increments(k) + Step(k + 1)
  {
  }

  lemma {:induction false} IncrementsRise(j: nat, k: nat)
    requires j <= k
    ensures Increments(j) <= Increments(k)
    decreases k - j
  {
    if j < k {
      IncrementsStep(j);
      IncrementsRise(j + 1, k);
    }
  }

  lemma SoldRises(run: Run, j: nat, k: nat)
    requires run.Valid() && j <= k
    ensures 0.0 <= run.Sold(j) <= run.Sold(k)
    ensures 1 <= j ==> 0.0 < run.Sold(j) && 0.0 < run.Cost(j)
  {
    IncrementsRise(0, j);
    IncrementsRise(j, k);
    var inc := run.SellIncrement();
    ScaleLe(0.0, Increments(j), inc);
    ScaleLe(Increments(j), Increments(k), inc);
    if 1 <= j {
      IncrementsRise(1, j);
      ScaleLt(0.0, Increments(j), inc);
      ScaleLt(0.0, Increments(j), run.sellIncrementCost);
    }
  }

  // ---------------------------------------------------------------- falling returns

  /** One side's falling margin, adjusted for fees. */
  lemma ScaledMargin(va: real, vb: real, vc: real, ab: real, bc: real, c: real)
    requires 0.0 < c && (vc - vb) * ab <= (vb - va) * bc
    ensures (vc / c - vb / c) * ab <= (vb / c - va / c) * bc
  {
    DivideSum(vc, vb, c);
    DivideSum(vb, va, c);
    DivideScaled(vc - vb, ab, c);
    DivideScaled(vb - va, bc, c);
    DivideLe((vc - vb) * ab, (vb - va) * bc, c);
  }

  lemma EarnedMarginFalls(run: Run, a: real, b: real, c: real)
    requires run.Valid() && 0.0 <= a <= b <= c
    ensures (run.Earned(c) - run.Earned(b)) * (b - a) <= (run.Earned(b) - run.Earned(a)) * (c - b)
  {
    hide Proceeds, Remaining, Ranked;
    MarginFalls(run.bids, a, b, c);
    MarginFalls(run.asks, a, b, c);
    ScaledMargin(Proceeds(run.bids, a), Proceeds(run.bids, b), Proceeds(run.bids, c), b - a, c - b, 1.0 - run.feeRate);
    ScaledMargin(Proceeds(run.asks, a), Proceeds(run.asks, b), Proceeds(run.asks, c), b - a, c - b, 1.0 + run.feeRate);
  }

  lemma EarnedRises(run: Run, a: real, b: real)
    requires run.Valid() && 0.0 <= a <= b
    ensures 0.0 == run.Earned(0.0) <= run.Earned(a) <= run.Earned(b)
  {
    hide Proceeds, Remaining;
    TakeNothing(run.bids, 0.0);
    TakeNothing(run.asks, 0.0);
    DivideCompare(0.0, 1.0 - run.feeRate, 0.0);
    DivideCompare(0.0, 1.0 + run.feeRate, 0.0);
    SideRises(run.bids, a, b, 1.0 - run.feeRate);
    SideRises(run.asks, a, b, 1.0 + run.feeRate);
  }

  lemma SideRises(book: seq<Level>, a: real, b: real, c: real)
    requires Ranked(book) && 0.0 <= a <= b && 0.0 < c
    ensures 0.0 <= Proceeds(book, a) / c <= Proceeds(book, b) / c
  {
    hide Proceeds;
    var best := if book == [] then 0.0 else book[0].sharePrice;
    TakeNothing(book, 0.0);
    ProceedsRise(book, best, 0.0, a);
    ProceedsRise(book, best, a, b);
    DivideLe(0.0, Proceeds(book, a), c);
    DivideLe(Proceeds(book, a), Proceeds(book, b), c);
  }

  lemma TokensRise(run: Run, j: nat, k: nat)
    requires run.Valid() && j <= k
    ensures 0.0 <= run.Tokens(j) <= run.Tokens(k)
    ensures run.Tokens(0) == 0.0
  {
    SoldRises(run, j, k);
    EarnedRises(run, run.Sold(j), run.Sold(k));
    assert run.Sold(0) == 0.0;
  }

  /** Return on investment after `k` iterations. */
  function Return(run: Run, k: nat): real
    requires run.Valid() && 1 <= k
  {
    SoldRises(run, k, k);
    DividedBy(run.Tokens(k), run.Cost(k))
  }

  lemma CostOfSold(run: Run, k: nat)
    requires run.Valid()
    ensures run.Cost(k) == run.Sold(k) * run.completeSetCost
  {
    DivideTimes(run.sellIncrementCost, run.completeSetCost);
    assert Increments(k) * run.SellIncrement() * run.completeSetCost
        == Increments(k) * (run.SellIncrement() * run.completeSetCost);
  }

  lemma ReturnStep(ej: real, ek: real, sj: real, sk: real, cj: real, ck: real, price: real)
    requires 0.0 < sj && 0.0 < sk && 0.0 < price && cj == sj * price && ck == sk * price
    requires (ek - ej) * sj <= ej * (sk - sj)
    ensures cj != 0.0 && ck != 0.0 && ek / ck <= ej / cj
  {
    ScaleLt(0.0, sj, price);
    ScaleLt(0.0, sk, price);
    assert ek * sj <= ej * sk;
    ScaleLe(ek * sj, ej * sk, price);
    var r := ej / cj;
    DivideTimes(ej, cj);
    assert r * ck * cj == ej * ck;
    if r * ck < ek {
      ScaleLt(r * ck, ek, cj);
      assert false;
    }
    DivideCompare(ek, ck, r);
  }

  /** What is earned beyond the first `j` iterations earns no more per share than they did. */
  lemma TokensMargin(run: Run, j: nat, k: nat)
    requires run.Valid() && j <= k
    ensures (run.Tokens(k) - run.Tokens(j)) * run.Sold(j) <= run.Tokens(j) * (run.Sold(k) - run.Sold(j))
  {
    hide Run.Earned, Run.Sold, Ranked;
    SoldRises(run, j, k);
    EarnedRises(run, run.Sold(j), run.Sold(k));
    EarnedMarginFalls(run, 0.0, run.Sold(j), run.Sold(k));
    assert run.Sold(j) - 0.0 == run.Sold(j) && run.Tokens(j) - run.Earned(0.0) == run.Tokens(j);
  }

  /** The return never rises from one iteration to a later one, also across the switch to larger increments. */
  lemma ReturnNeverRises(run: Run, j: nat, k: nat)
    requires run.Valid() && 1 <= j <= k
    ensures Return(run, k) <= Return(run, j)
  {
    hide Increments, Run.Tokens, Run.Sold, Run.Cost, Ranked;
    SoldRises(run, j, k);
    SoldRises(run, k, k);
    TokensMargin(run, j, k);
    CostOfSold(run, j);
    CostOfSold(run, k);
    ReturnStep(run.Tokens(j), run.Tokens(k), run.Sold(j), run.Sold(k), run.Cost(j), run.Cost(k), run.completeSetCost);
  }

  // ---------------------------------------------------------------- when a spread percent is settled

  /** Iteration `k` settles spread percent `sp`: it earned nothing, or the return is now too low. */
  predicate Settles(run: Run, sp: real, k: nat)
    requires run.Valid() && 1 <= k
  {
    run.Tokens(k) - run.Tokens(k - 1) <= 0.0 || Return(run, k) < 1.0 - sp
  }

  lemma SoldStep(run: Run, k: nat)
    requires run.Valid() && 1 <= k
    ensures run.Sold(k - 1) < run.Sold(k)
  {
    IncrementsStep(k - 1);
    ScaleLt(Increments(k - 1), Increments(k), run.SellIncrement());
  }

  lemma NoRise(rise: real, width: real)
    requires rise * width <= 0.0 && 0.0 < width
    ensures rise <= 0.0
  {
    if 0.0 < rise { ScaleLt(0.0, rise, width); }
  }

  /** After an iteration that earns nothing, nothing more is ever earned. */
  lemma NothingMore(run: Run, k: nat, q: real)
    requires run.Valid() && 1 <= k && run.Tokens(k) - run.Tokens(k - 1) <= 0.0 && run.Sold(k) <= q
    ensures run.Earned(q) == run.Tokens(k - 1)
  {
    hide Increments, Run.Earned, Run.Cost, Run.Sold;
    SoldRises(run, k - 1, k);
    TokensRise(run, k - 1, k);
    EarnedRises(run, run.Sold(k), q);
    EarnedMarginFalls(run, run.Sold(k - 1), run.Sold(k), q);
    SoldStep(run, k);
    assert run.Tokens(k) - run.Tokens(k - 1) == 0.0;
    NoRise(run.Earned(q) - run.Tokens(k), run.Sold(k) - run.Sold(k - 1));
  }

  /** A settled spread percent stays settled: going on selling never makes it qualify again. */
  lemma SettledStays(run: Run, sp: real, j: nat, k: nat)
    requires run.Valid() && 1 <= j <= k && Settles(run, sp, j)
    ensures Settles(run, sp, k)
  {
    hide Increments, Run.Earned, Run.Cost, Run.Sold, Return;
    ReturnNeverRises(run, j, k);
    if run.Tokens(j) - run.Tokens(j - 1) <= 0.0 && j < k {
      SoldRises(run, j, k - 1);
      SoldRises(run, j, k);
      NothingMore(run, j, run.Sold(k));
      NothingMore(run, j, run.Sold(k - 1));
    }
  }

  lemma CeilCovers(x: real, c: real)
    requires 0.0 <= x && 0.0 < c
    ensures x <= Ceil(x / c) as real * c
    ensures 0 <= Ceil(x / c)
  {
    DivideTimes(x, c);
    DivideCompare(x, c, 0.0);
    ScaleLe(x / c, Ceil(x / c) as real, c);
  }

  /** Iterations within which every spread percent is settled: one more than it takes to sell the larger side. */
  function IterationBound(run: Run): (bound: nat)
    requires run.Valid()
    ensures 1 <= bound
  {
    RemainingQuantity(run.bids, 0.0);
    RemainingQuantity(run.asks, 0.0);
    var total, inc := run.LargerSide(), run.SellIncrement();
    var highResolution := MAX_ITERATIONS as real * inc;
    if total <= highResolution then
      CeilCovers(total, inc);
      Ceil(total / inc) + 1
    else
      CeilCovers(total - highResolution, ONE_HUNDRED_MILLION * inc);
      MAX_ITERATIONS + Ceil((total - highResolution) / (ONE_HUNDRED_MILLION * inc)) + 1
  }

  lemma CeilWithin(x: real, n: nat, c: real)
    requires 0.0 <= x && 0.0 < c && x <= n as real * c
    ensures Ceil(x / c) <= n
  {
    DivideCompare(x, c, n as real);
  }

  /** By one iteration before the bound, everything on both sides has been sold. */
  lemma BoundSellsEverything(run: Run)
    requires run.Valid()
    ensures run.LargerSide() <= run.Sold(IterationBound(run) - 1)
  {
    hide TotalQuantity, Run.LargerSide, Ceil, Ranked;
    RemainingQuantity(run.bids, 0.0);
    RemainingQuantity(run.asks, 0.0);
    assert 0.0 <= run.LargerSide() by { SideNonnegative(run); }
    var total, inc := run.LargerSide(), run.SellIncrement();
    var highResolution := MAX_ITERATIONS as real * inc;
    if total <= highResolution {
      CeilCovers(total, inc);
      CeilWithin(total, MAX_ITERATIONS, inc);
    } else {
      CeilCovers(total - highResolution, ONE_HUNDRED_MILLION * inc);
      var k := Ceil((total - highResolution) / (ONE_HUNDRED_MILLION * inc));
      assert (MAX_ITERATIONS as real + k as real * ONE_HUNDRED_MILLION) * inc
          == highResolution + k as real * (ONE_HUNDRED_MILLION * inc);
      assert Increments(MAX_ITERATIONS + k) == MAX_ITERATIONS as real + k as real * ONE_HUNDRED_MILLION;
    }
  }

  lemma SideNonnegative(run: Run)
    requires run.Valid()
    ensures 0.0 <= run.LargerSide()
  {
    RemainingQuantity(run.bids, 0.0);
  }

  lemma EarnedOfAll(run: Run, q: real)
    requires run.Valid() && run.LargerSide() <= q
    ensures run.Earned(q) == run.WholeBook()
  {
    ProceedsOfAll(run.bids, q);
    ProceedsOfAll(run.asks, q);
  }

  /** Every spread percent is settled by the bound. */
  lemma SettledAtBound(run: Run, sp: real)
    requires run.Valid()
    ensures Settles(run, sp, IterationBound(run))
  {
    hide Increments, Run.Earned, Run.Cost, Run.Sold, Return, IterationBound, Run.LargerSide, Run.WholeBook;
    var bound := IterationBound(run);
    BoundSellsEverything(run);
    SoldRises(run, bound - 1, bound);
    EarnedOfAll(run, run.Sold(bound - 1));
    EarnedOfAll(run, run.Sold(bound));
  }

  /** The first iteration from `from` on that settles `sp`. */
  function FirstSettled(run: Run, sp: real, from: nat): (k: nat)
    requires run.Valid() && 1 <= from <= IterationBound(run)
    ensures from <= k <= IterationBound(run) && Settles(run, sp, k)
    ensures forall j :: from <= j < k ==> !Settles(run, sp, j)
    decreases IterationBound(run) - from
  {
    if Settles(run, sp, from) then from
    else
      SettledAtBound(run, sp);
      FirstSettled(run, sp, from + 1)
  }

  /** The tokens recorded for `sp`: the running total just before the iteration that settles it. */
  function Recorded(run: Run, sp: real): real
    requires run.Valid()
  {
    run.Tokens(FirstSettled(run, sp, 1) - 1)
  }

  /** After `k` iterations the return still satisfies `sp`; selling nothing always does. */
  predicate Qualifies(run: Run, sp: real, k: nat)
    requires run.Valid()
  {
    k == 0 || 1.0 - sp <= Return(run, k)
  }

  /** What qualifying means: the tokens earned are at least one less the spread percent of what the complete sets sold
      cost, which is their number times the cost of one. */
  lemma QualifyingMeans(run: Run, sp: real, k: nat)
    requires run.Valid() && 1 <= k
    ensures Qualifies(run, sp, k) <==>
      (1.0 - sp) * (run.Sold(k) * run.completeSetCost)
      <= Proceeds(run.bids, run.Sold(k)) / (1.0 - run.feeRate) + Proceeds(run.asks, run.Sold(k)) / (1.0 + run.feeRate)
  {
    hide Increments, Run.Sold, Run.Cost, Proceeds;
    SoldRises(run, k, k);
    CostOfSold(run, k);
    DivideCompare(run.Tokens(k), run.Cost(k), 1.0 - sp);
  }

  /** The schedule of increments: one at a time for the first hundred thousand iterations, a hundred million at a time
      from then on. */
  lemma Schedule(run: Run, k: nat)
    requires run.Valid()
    ensures run.Sold(k) * run.completeSetCost == run.Cost(k)
    ensures k <= 100000 ==> run.Cost(k) == k as real * run.sellIncrementCost
    ensures 100000 <= k ==> run.Cost(k) == (100000.0 + (k - 100000) as real * 100000000.0) * run.sellIncrementCost
  {
    CostOfSold(run, k);
  }

  /** The bound in figures: in the first phase the increments that cover the larger side, and one; else a hundred
      thousand, those hundred millions of increments that cover the rest, and one. */
  lemma BoundInFigures(run: Run)
    requires run.Valid()
    ensures var total, inc := Max(TotalQuantity(run.bids), TotalQuantity(run.asks)), run.SellIncrement();
      && (total <= 100000.0 * inc ==>
            var n := IterationBound(run) - 1;
            total <= n as real * inc < total + inc)
      && (100000.0 * inc < total ==>
            var n := IterationBound(run) - 1 - 100000;
            var rest := total - 100000.0 * inc;
            rest <= n as real * (100000000.0 * inc) < rest + 100000000.0 * inc)
  {
    hide TotalQuantity, Ranked, Run.SellIncrement;
    var total, inc := run.LargerSide(), run.SellIncrement();
    var rest := total - 100000.0 * inc;
    if total <= 100000.0 * inc {
      CeilIsTight(total, inc);
    } else {
      CeilIsTight(rest, 100000000.0 * inc);
    }
  }

  lemma CeilIsTight(x: real, c: real)
    requires 0.0 < c
    ensures x <= Ceil(x / c) as real * c < x + c
  {
    var n := Ceil(x / c) as real;
    DivideCompare(x, c, n);
    DivideCompare(x, c, n - 1.0);
    OneTimeLess(n, c);
  }

  lemma OneTimeLess(n: real, c: real)
    ensures (n - 1.0) * c == n * c - c
  {
  }

  /** What is recorded for a spread percent is the most that any qualifying amount of selling earns. */
  lemma RecordedIsLargestQualifying(run: Run, sp: real)
    requires run.Valid()
    ensures exists k :: Qualifies(run, sp, k) && run.Tokens(k) == Recorded(run, sp)
    ensures forall k :: Qualifies(run, sp, k) ==> run.Tokens(k) <= Recorded(run, sp)
  {
    hide Increments, Run.Earned, Run.Cost, Run.Sold, Return, IterationBound, Run.LargerSide, Run.Tokens;
    var settled := FirstSettled(run, sp, 1);
    if 1 < settled { assert !Settles(run, sp, settled - 1); }
    assert Qualifies(run, sp, settled - 1) && run.Tokens(settled - 1) == Recorded(run, sp);
    forall k | Qualifies(run, sp, k)
      ensures run.Tokens(k) <= Recorded(run, sp)
    {
      if k < settled {
        TokensRise(run, k, settled - 1);
      } else {
        AfterSettled(run, sp, settled, k);
      }
    }
  }

  lemma AfterSettled(run: Run, sp: real, settled: nat, k: nat)
    requires run.Valid() && 1 <= settled <= k && Settles(run, sp, settled) && Qualifies(run, sp, k)
    ensures run.Tokens(k) == run.Tokens(settled - 1)
  {
    hide Increments, Run.Earned, Run.Cost, Run.Sold, Return;
    ReturnNeverRises(run, settled, k);
    SoldRises(run, settled, k);
    NothingMore(run, settled, run.Sold(k));
  }

  /** A spread percent of one or more records the value of the whole book, whatever the increment. */
  lemma FullSpreadRecordsWholeBook(run: Run, sp: real)
    requires run.Valid() && 1.0 <= sp
    ensures Recorded(run, sp) == run.WholeBook()
  {
    hide Increments, Run.Earned, Run.Cost, Run.Sold, IterationBound, Run.LargerSide, Run.WholeBook, Return;
    var settled, bound := FirstSettled(run, sp, 1), IterationBound(run);
    ReturnNonnegative(run, settled);
    BoundSellsEverything(run);
    SoldRises(run, bound - 1, bound);
    SoldRises(run, settled, bound);
    EarnedOfAll(run, run.Sold(bound));
    NothingMore(run, settled, run.Sold(bound));
  }

  lemma ReturnNonnegative(run: Run, k: nat)
    requires run.Valid() && 1 <= k
    ensures 0.0 <= Return(run, k)
  {
    hide Increments, Run.Earned, Run.Cost, Run.Sold;
    SoldRises(run, k, k);
    TokensRise(run, k, k);
    DivideCompare(run.Tokens(k), run.Cost(k), 0.0);
  }

  /** A wider spread percent never records less. */
  lemma WiderSpreadRecordsMore(run: Run, narrow: real, wide: real)
    requires run.Valid() && narrow <= wide
    ensures FirstSettled(run, narrow, 1) <= FirstSettled(run, wide, 1)
    ensures Recorded(run, narrow) <= Recorded(run, wide)
  {
    hide Increments, Run.Earned, Run.Cost, Run.Sold, IterationBound, Return, Run.Tokens;
    var n, w := FirstSettled(run, narrow, 1), FirstSettled(run, wide, 1);
    assert Settles(run, narrow, w);
    TokensRise(run, n - 1, w - 1);
  }

  // ---------------------------------------------------------------- the algorithm

  predicate Ascending(xs: seq<real>) {
    forall i, j :: 0 <= i < j < |xs| ==> xs[i] <= xs[j]
  }

  function InsertAscending(x: real, xs: seq<real>): seq<real> {
    if xs == [] || x <= xs[0] then [x] + xs
    else [xs[0]] + InsertAscending(x, xs[1..])
  }

  /** The spread percents in ascending order. */
  function SortAscending(xs: seq<real>): seq<real> {
    if xs == [] then [] else InsertAscending(xs[0], SortAscending(xs[1..]))
  }

  lemma {:induction false} InsertAddsOne(x: real, xs: seq<real>)
    ensures multiset(InsertAscending(x, xs)) == multiset(xs) + multiset{x}
  {
    if xs != [] {
      assert xs == [xs[0]] + xs[1..];
      if xs[0] < x {
        InsertAddsOne(x, xs[1..]);
      }
    }
  }

  lemma InsertMembers(x: real, xs: seq<real>, y: real)
    requires y in InsertAscending(x, xs)
    ensures y == x || y in xs
  {
    hide InsertAscending;
    InsertAddsOne(x, xs);
    assert y in multiset(InsertAscending(x, xs));
  }

  lemma {:induction false} InsertKeepsOrder(x: real, xs: seq<real>)
    requires Ascending(xs)
    ensures Ascending(InsertAscending(x, xs))
  {
    if xs == [] || x <= xs[0] {
    } else {
      InsertKeepsOrder(x, xs[1..]);
      forall y | y in InsertAscending(x, xs[1..])
        ensures xs[0] <= y
      {
        InsertMembers(x, xs[1..], y);
      }
      PrependAscending(xs[0], InsertAscending(x, xs[1..]));
    }
  }

  lemma PrependAscending(x: real, xs: seq<real>)
    requires Ascending(xs) && forall y :: y in xs ==> x <= y
    ensures Ascending([x] + xs)
  {
    assert forall k :: 0 <= k < |xs| ==> xs[k] in xs;
  }

  lemma {:induction false} SortAscendingSorts(xs: seq<real>)
    ensures Ascending(SortAscending(xs))
    ensures multiset(SortAscending(xs)) == multiset(xs) && |SortAscending(xs)| == |xs|
  {
    if xs != [] {
      SortAscendingSorts(xs[1..]);
      InsertKeepsOrder(xs[0], SortAscending(xs[1..]));
      InsertAddsOne(xs[0], SortAscending(xs[1..]));
      assert xs == [xs[0]] + xs[1..];
      assert |multiset(SortAscending(xs))| == |SortAscending(xs)|;
      assert |multiset(xs)| == |xs|;
    }
  }

  ghost function RunOn(book: OrderBook, feeRate: real, completeSetCost: real, sellIncrementCost: real): Run
    reads book, book.bids, book.asks
  {
    Run(book.BidLevels(), book.AskLevels(), feeRate, completeSetCost, sellIncrementCost)
  }

  /** One iteration's sale, into what is left of the book, adds what the running total of tokens rises by. */
  lemma SellsOneStep(run: Run, k: nat, bids: seq<Level>, asks: seq<Level>, step: real)
    requires run.Valid() && step == MultipliedBy(run.SellIncrement(), Step(k + 1))
    requires bids == Remaining(run.bids, run.Sold(k)) && asks == Remaining(run.asks, run.Sold(k))
    ensures run.Tokens(k + 1) == run.Tokens(k)
      + DividedBy(Proceeds(bids, step), 1.0 - run.feeRate) + DividedBy(Proceeds(asks, step), 1.0 + run.feeRate)
    ensures Remaining(bids, step) == Remaining(run.bids, run.Sold(k + 1))
    ensures Remaining(asks, step) == Remaining(run.asks, run.Sold(k + 1))
  {
    hide Proceeds, Remaining, Ranked, Increments;
    SoldRises(run, k, k + 1);
    IncrementsStep(k);
    assert run.Sold(k + 1) == run.Sold(k) + step;
    hide Run.Sold, MultipliedBy;
    NothingNegative(run);
    TakesCompose(run.bids, run.Sold(k), step);
    TakesCompose(run.asks, run.Sold(k), step);
    DivideSum(Proceeds(run.bids, run.Sold(k)), Proceeds(bids, step), 1.0 - run.feeRate);
    DivideSum(Proceeds(run.asks, run.Sold(k)), Proceeds(asks, step), 1.0 + run.feeRate);
  }

  lemma NothingNegative(run: Run)
    requires run.Valid()
    ensures forall i :: 0 <= i < |run.bids| ==> run.bids[i].quantity >= 0.0
    ensures forall i :: 0 <= i < |run.asks| ==> run.asks[i].quantity >= 0.0
  {
  }

  lemma RunIsValid(run: Run)
    requires run.Valid()
    ensures 0.0 <= run.feeRate < 1.0 && run.completeSetCost != 0.0
    ensures DividedBy(run.sellIncrementCost, run.completeSetCost) == run.SellIncrement()
  {
  }

  lemma CostStep(run: Run, k: nat)
    ensures run.Cost(k + 1) == run.Cost(k) + MultipliedBy(run.sellIncrementCost, Step(k + 1))
  {
    IncrementsStep(k);
  }

  lemma SoldNothing(run: Run)
    requires run.Valid()
    ensures run.Sold(0) == 0.0 == run.Cost(0)
    ensures Remaining(run.bids, run.Sold(0)) == run.bids && Remaining(run.asks, run.Sold(0)) == run.asks
  {
  }

  /** `rest` is the end of `orders`, after its best orders have been dropped. */
  ghost predicate IsRest(rest: seq<QuantityAtPrice>, orders: seq<QuantityAtPrice>) {
    |rest| <= |orders| && rest == orders[|orders| - |rest|..]
  }

  lemma RestOfAll(orders: seq<QuantityAtPrice>)
    ensures IsRest(orders, orders)
  {
  }

  lemma RestOfRest(last: seq<QuantityAtPrice>, rest: seq<QuantityAtPrice>, orders: seq<QuantityAtPrice>)
    requires IsRest(last, rest) && IsRest(rest, orders)
    ensures IsRest(last, orders)
  {
  }

  lemma RestIsAmong(rest: seq<QuantityAtPrice>, orders: seq<QuantityAtPrice>)
    requires IsRest(rest, orders)
    ensures forall i :: 0 <= i < |rest| ==> rest[i] in orders
  {
  }

  /** Sells the two halves of `quantity` complete sets, one into each side of the book. */
  method SellCompleteSets(orderBook: OrderBook, quantity: real, feeRate: real) returns (proceeds: real)
    requires orderBook.Valid() && 0.0 <= feeRate < 1.0
    modifies orderBook, orderBook.bids, orderBook.asks
    ensures orderBook.Valid()
    ensures proceeds == DividedBy(Proceeds(old(orderBook.BidLevels()), quantity), 1.0 - feeRate)
                      + DividedBy(Proceeds(old(orderBook.AskLevels()), quantity), 1.0 + feeRate)
    ensures orderBook.BidLevels() == Remaining(old(orderBook.BidLevels()), quantity)
    ensures orderBook.AskLevels() == Remaining(old(orderBook.AskLevels()), quantity)
    ensures IsRest(orderBook.bids, old(orderBook.bids)) && IsRest(orderBook.asks, old(orderBook.asks))
  {
    hide Proceeds, Remaining, Levels;
    var long := orderBook.CloseLongFillOnlyWithFeeAdjustment(quantity, feeRate, false);
    var short := orderBook.CloseShortFillOnlyWithFeeAdjustment(quantity, feeRate, false);
    proceeds := long + short;
  }

  /** The recorded spread percents have their amounts, and the others are not settled by iteration `k`. */
  ghost predicate RecordedUpTo(run: Run, spreads: seq<real>, result: seq<LiquidityTokensAtSpreadPercent>, k: nat)
    requires run.Valid()
  {
    && |result| <= |spreads|
    && (forall i :: 0 <= i < |result| ==>
        result[i] == LiquidityTokensAtSpreadPercent(spreads[i], Recorded(run, spreads[i])))
    && (forall i :: |result| <= i < |spreads| ==> k < FirstSettled(run, spreads[i], 1))
  }

  lemma NextNotSettled(run: Run, spreads: seq<real>, result: seq<LiquidityTokensAtSpreadPercent>, k: nat)
    requires run.Valid() && RecordedUpTo(run, spreads, result, k) && |result| < |spreads|
    ensures k < FirstSettled(run, spreads[|result|], 1) <= IterationBound(run)
  {
  }

  lemma NothingRecorded(run: Run, spreads: seq<real>)
    requires run.Valid()
    ensures RecordedUpTo(run, spreads, [], 0)
  {
  }

  lemma AllRecorded(run: Run, spreads: seq<real>, result: seq<LiquidityTokensAtSpreadPercent>, k: nat)
    requires run.Valid() && RecordedUpTo(run, spreads, result, k) && |spreads| <= |result|
    ensures |result| == |spreads|
    ensures forall i :: 0 <= i < |result| ==>
      result[i] == LiquidityTokensAtSpreadPercent(spreads[i], Recorded(run, spreads[i]))
  {
  }

  /** The loop's own test, on its own totals, tells whether the iteration settles a spread percent. */
  lemma TestSettles(run: Run, k: nat, sp: real, proceeds: real, tokens: real, cost: real)
    requires run.Valid() && tokens == run.Tokens(k + 1) == run.Tokens(k) + proceeds && cost == run.Cost(k + 1)
    ensures cost != 0.0
    ensures Settles(run, sp, k + 1) <==> proceeds <= 0.0 || DividedBy(tokens, cost) < 1.0 - sp
  {
    hide DividedBy, Run.Tokens, Run.Cost;
    SoldRises(run, k + 1, k + 1);
  }

  lemma RecordNext(run: Run, spreads: seq<real>, result: seq<LiquidityTokensAtSpreadPercent>, k: nat)
    requires run.Valid() && RecordedUpTo(run, spreads, result, k) && |result| < |spreads|
    requires Settles(run, spreads[|result|], k + 1)
    ensures RecordedUpTo(run, spreads, result + [LiquidityTokensAtSpreadPercent(spreads[|result|], run.Tokens(k))], k)
    ensures |result| + 1 <= |spreads|
  {
    hide Settles, Run.Tokens;
    assert FirstSettled(run, spreads[|result|], 1) == k + 1;
  }

  lemma RestNotSettled(run: Run, spreads: seq<real>, result: seq<LiquidityTokensAtSpreadPercent>, k: nat)
    requires run.Valid() && Ascending(spreads) && RecordedUpTo(run, spreads, result, k)
    requires |result| < |spreads| ==> !Settles(run, spreads[|result|], k + 1)
    ensures RecordedUpTo(run, spreads, result, k + 1)
  {
    hide Settles, Run.Tokens, FirstSettled, Recorded;
    forall i | |result| <= i < |spreads|
      ensures k + 1 < FirstSettled(run, spreads[i], 1)
    {
      WiderSpreadRecordsMore(run, spreads[|result|], spreads[i]);
    }
  }

  /** Sells complete sets into the book in increments and records, for every spread percent in ascending order, the
      tokens earned before the return fell below it. Each recorded amount depends on the starting book and its own
      spread percent only, so one pass gives what a separate run for each would give. */
  method GetLiquidity(spreadPercents: seq<real>, completeSetCost: real, feeRate: real, orderBook: OrderBook,
      sellIncrementCost: real)
    returns (result: seq<LiquidityTokensAtSpreadPercent>, iterations: nat)
    requires orderBook.Valid() && RunOn(orderBook, feeRate, completeSetCost, sellIncrementCost).Valid()
    modifies orderBook, orderBook.bids, orderBook.asks
    ensures |result| == |spreadPercents| == |SortAscending(spreadPercents)|
    ensures forall i :: 0 <= i < |result| ==> result[i].spreadPercent == SortAscending(spreadPercents)[i]
    ensures forall i :: 0 <= i < |result| ==>
      result[i].liquidityTokens
          == Recorded(old(RunOn(orderBook, feeRate, completeSetCost, sellIncrementCost)), result[i].spreadPercent)
    ensures forall i, j :: 0 <= i < j < |result| ==> result[i].liquidityTokens <= result[j].liquidityTokens
    ensures forall i :: 0 <= i < |result| && 1.0 <= result[i].spreadPercent ==>
      result[i].liquidityTokens == old(BidValue(orderBook.market, Offers(orderBook.bids))) / (1.0 - feeRate)
                                 + old(AskValue(orderBook.market, Offers(orderBook.asks))) / (1.0 + feeRate)
    ensures iterations <= IterationBound(old(RunOn(orderBook, feeRate, completeSetCost, sellIncrementCost)))
  {
    hide Proceeds, Remaining, Increments, IterationBound, Run.Valid, Run.SellIncrement, Run.Sold, Run.Cost, Run.Tokens,
         MultipliedBy, DividedBy, SortAscending, Ascending, Recorded, FirstSettled, Settles, RecordedUpTo, IsRest,
         Ranked, Levels, Offers, BidValue, AskValue, OrderBook.Valid, OrderBook.BidLevels, OrderBook.AskLevels;
    ghost var run := RunOn(orderBook, feeRate, completeSetCost, sellIncrementCost);
    FullSpreadIsOrders(orderBook, run);
    ghost var bids, asks := orderBook.bids, orderBook.asks;
    RunIsValid(run);
    var sellIncrement := DividedBy(sellIncrementCost, completeSetCost);
    var liquidityTokenCost, liquidityTokens := 0.0, 0.0;
    var spreadPercentsAscending := SortAscending(spreadPercents);
    SortAscendingSorts(spreadPercents);
    SoldNothing(run);
    TokensRise(run, 0, 0);
    NothingRecorded(run, spreadPercentsAscending);
    result, iterations := [], 0;
    assert IsRest(bids, bids) && IsRest(asks, asks) by { RestOfAll(bids); RestOfAll(asks); }
    while |result| < |spreadPercentsAscending|
      invariant orderBook.Valid()
      invariant orderBook.BidLevels() == Remaining(run.bids, run.Sold(iterations))
      invariant orderBook.AskLevels() == Remaining(run.asks, run.Sold(iterations))
      invariant IsRest(orderBook.bids, bids) && IsRest(orderBook.asks, asks)
      invariant liquidityTokenCost == run.Cost(iterations) && liquidityTokens == run.Tokens(iterations)
      invariant RecordedUpTo(run, spreadPercentsAscending, result, iterations)
      invariant iterations <= IterationBound(run)
      decreases IterationBound(run) - iterations
    {
      ghost var k := iterations;
      NextNotSettled(run, spreadPercentsAscending, result, k);
      iterations := iterations + 1;
      var scale := if iterations > MAX_ITERATIONS then ONE_HUNDRED_MILLION else 1.0;
      var sellIncrementCostThisIteration := MultipliedBy(sellIncrementCost, scale);
      var sellIncrementThisIteration := MultipliedBy(sellIncrement, scale);
      CostStep(run, k);
      SellsOneStep(run, k, orderBook.BidLevels(), orderBook.AskLevels(), sellIncrementThisIteration);

      liquidityTokenCost := liquidityTokenCost + sellIncrementCostThisIteration;
      ghost var wasBids, wasAsks := orderBook.bids, orderBook.asks;
      RestIsAmong(wasBids, bids);
      RestIsAmong(wasAsks, asks);
      var proceedsThisIncrement := SellCompleteSets(orderBook, sellIncrementThisIteration, feeRate);
      RestOfRest(orderBook.bids, wasBids, bids);
      RestOfRest(orderBook.asks, wasAsks, asks);
      var nextLiquidityTokens := liquidityTokens + proceedsThisIncrement;
      TestSettles(run, k, 0.0, proceedsThisIncrement, nextLiquidityTokens, liquidityTokenCost);

      while |result| < |spreadPercentsAscending| &&
            (proceedsThisIncrement <= 0.0
             || DividedBy(nextLiquidityTokens, liquidityTokenCost) < 1.0 - spreadPercentsAscending[|result|])
        modifies {}
        invariant RecordedUpTo(run, spreadPercentsAscending, result, k)
        decreases |spreadPercentsAscending| - |result|
      {
        var spreadPercent := spreadPercentsAscending[|result|];
        TestSettles(run, k, spreadPercent, proceedsThisIncrement, nextLiquidityTokens, liquidityTokenCost);
        RecordNext(run, spreadPercentsAscending, result, k);
        result := result + [LiquidityTokensAtSpreadPercent(spreadPercent, liquidityTokens)];
      }
      if |result| < |spreadPercentsAscending| {
        TestSettles(run, k, spreadPercentsAscending[|result|], proceedsThisIncrement, nextLiquidityTokens,
                    liquidityTokenCost);
      }
      RestNotSettled(run, spreadPercentsAscending, result, k);
      liquidityTokens := nextLiquidityTokens;
    }
    AllRecorded(run, spreadPercentsAscending, result, iterations);
    WiderRecordMore(run, spreadPercentsAscending);
  }

  /** At a spread percent of one or more the amount is that of the orders themselves. */
  lemma FullSpreadIsOrders(book: OrderBook, run: Run)
    requires run.Valid() && run.bids == book.BidLevels() && run.asks == book.AskLevels()
    ensures forall sp :: 1.0 <= sp ==>
      Recorded(run, sp) == BidValue(book.market, Offers(book.bids)) / (1.0 - run.feeRate)
                         + AskValue(book.market, Offers(book.asks)) / (1.0 + run.feeRate)
  {
    hide Recorded, BidValue, AskValue, BookValue, Levels, Offers;
    BookValueOfOffers(book.market, book.bids);
    BookValueOfOffers(book.market, book.asks);
    forall sp | 1.0 <= sp
      ensures Recorded(run, sp) == BidValue(book.market, Offers(book.bids)) / (1.0 - run.feeRate)
                                 + AskValue(book.market, Offers(book.asks)) / (1.0 + run.feeRate)
    {
      FullSpreadRecordsWholeBook(run, sp);
    }
  }

  lemma WiderRecordMore(run: Run, spreads: seq<real>)
    requires run.Valid() && Ascending(spreads)
    ensures forall i, j :: 0 <= i < j < |spreads| ==> Recorded(run, spreads[i]) <= Recorded(run, spreads[j])
  {
    hide Recorded;
    forall i, j | 0 <= i < j < |spreads|
      ensures Recorded(run, spreads[i]) <= Recorded(run, spreads[j])
    {
      WiderSpreadRecordsMore(run, spreads[i], spreads[j]);
    }
  }
}
