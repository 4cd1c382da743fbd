/** Category open interest is the sum over its markets, over every run in which finalized markets stay finalized. */
module CategoryLaws {
  import opened Categories

  // ---------------------------------------------------------------- sums over a table

  ghost function Total(amounts: map<Address, real>): real
    decreases |amounts|
  {
    if amounts == map[] then 0.0
    else
      var m :| m in amounts;
      amounts[m] + Total(amounts - {m})
  }

  lemma {:induction false} TotalWithout(amounts: map<Address, real>, m: Address)
    requires m in amounts
    ensures Total(amounts) == amounts[m] + Total(amounts - {m})
    decreases |amounts|
  {
    var first :| first in amounts && Total(amounts) == amounts[first] + Total(amounts - {first});
    if first != m {
      TotalWithout(amounts - {first}, m);
      TotalWithout(amounts - {m}, first);
      assert amounts - {first} - {m} == amounts - {m} - {first};
    }
  }

  lemma TotalSplits(amounts: map<Address, real>, m: Address)
    ensures Total(amounts) == Total(amounts - {m}) + if m in amounts then amounts[m] else 0.0
  {
    if m in amounts {
      TotalWithout(amounts, m);
    } else {
      assert amounts - {m} == amounts;
    }
  }

  // ---------------------------------------------------------------- what categories should hold

  /** Open interest of the category's markets. */
  ghost function AllIn(t: Tables, c: string): map<Address, real> {
    map m | m in t.markets && t.markets[m].category == c :: t.markets[m].openInterest
  }

  /** Open interest of the category's markets that are not finalized. */
  ghost function OpenIn(t: Tables, c: string): map<Address, real> {
    map m | m in t.markets && t.markets[m].category == c && !IsFinalized(t, m) :: t.markets[m].openInterest
  }

  /** Every market has its category, and every category the two sums of its markets. */
  ghost predicate Summed(t: Tables) {
    && (forall m :: m in t.markets ==> t.markets[m].category in t.categories)
    && (forall c :: c in t.categories ==> SummedIn(t, c))
  }

  ghost predicate SummedIn(t: Tables, c: string)
    requires c in t.categories
  {
    t.categories[c] == CategoryRow(Total(AllIn(t, c)), Total(OpenIn(t, c)))
  }

  // ---------------------------------------------------------------- one market at a time

  /** What one market adds to the sums of a category. */
  function Part(t: Tables, m: Address, c: string): CategoryRow {
    if m !in t.markets || t.markets[m].category != c then CategoryRow(0.0, 0.0)
    else CategoryRow(t.markets[m].openInterest, if IsFinalized(t, m) then 0.0 else t.markets[m].openInterest)
  }

  function Minus(a: CategoryRow, b: CategoryRow): CategoryRow {
    CategoryRow(a.openInterest - b.openInterest, a.nonFinalizedOpenInterest - b.nonFinalizedOpenInterest)
  }

  ghost predicate SameMarket(t: Tables, after: Tables, n: Address) {
    && (n in after.markets <==> n in t.markets)
    && (n in t.markets ==> after.markets[n] == t.markets[n])
    && (IsFinalized(after, n) <==> IsFinalized(t, n))
  }

  lemma SameRest(t: Tables, after: Tables, m: Address, c: string)
    requires forall n :: n != m ==> SameMarket(t, after, n)
    ensures AllIn(after, c) - {m} == AllIn(t, c) - {m}
    ensures OpenIn(after, c) - {m} == OpenIn(t, c) - {m}
  {
    hide IsFinalized;
    forall n | n != m
      ensures n in AllIn(after, c) <==> n in AllIn(t, c)
      ensures n in OpenIn(after, c) <==> n in OpenIn(t, c)
      ensures n in AllIn(t, c) ==> AllIn(after, c)[n] == AllIn(t, c)[n]
      ensures n in OpenIn(t, c) ==> OpenIn(after, c)[n] == OpenIn(t, c)[n]
    {
      assert SameMarket(t, after, n);
    }
    hide AllIn, OpenIn, SameMarket;
  }

  lemma PartIsShare(t: Tables, m: Address, c: string)
    ensures Part(t, m, c).openInterest == if m in AllIn(t, c) then AllIn(t, c)[m] else 0.0
    ensures Part(t, m, c).nonFinalizedOpenInterest == if m in OpenIn(t, c) then OpenIn(t, c)[m] else 0.0
  {
    hide IsFinalized;
  }

  /** When a single market changes, the sums stay right exactly where the category moves by that market's change. */
  lemma SumsMove(t: Tables, after: Tables, m: Address, c: string)
    requires forall n :: n != m ==> SameMarket(t, after, n)
    requires c in t.categories && c in after.categories && SummedIn(t, c)
    ensures SummedIn(after, c) <==>
        Minus(after.categories[c], t.categories[c]) == Minus(Part(after, m, c), Part(t, m, c))
  {
    hide AllIn, OpenIn, Total, Part, SameMarket;
    SameRest(t, after, m, c);
    PartIsShare(t, m, c);
    PartIsShare(after, m, c);
    TotalSplits(AllIn(t, c), m);
    TotalSplits(AllIn(after, c), m);
    TotalSplits(OpenIn(t, c), m);
    TotalSplits(OpenIn(after, c), m);
  }

  /** The whole table stays right exactly when the market's own category moves by the market's change. */
  lemma KeptExactlyIf(t: Tables, after: Tables, m: Address)
    requires Summed(t) && m in t.markets && m in after.markets && after.markets[m].category == t.markets[m].category
    requires forall n :: n != m ==> SameMarket(t, after, n)
    requires after.categories.Keys == t.categories.Keys
    requires forall c :: c in t.categories && c != t.markets[m].category ==> after.categories[c] == t.categories[c]
    ensures var k := t.markets[m].category;
      Summed(after) <==> Minus(after.categories[k], t.categories[k]) == Minus(Part(after, m, k), Part(t, m, k))
  {
    hide IsFinalized, SummedIn;
    var k := t.markets[m].category;
    assert SummedIn(t, k);
    SumsMove(t, after, m, k);
    forall c | c in t.categories && c != k
      ensures SummedIn(after, c)
    {
      assert SummedIn(t, c);
      SumsMove(t, after, m, c);
    }
    forall n | n in after.markets
      ensures after.markets[n].category in after.categories
    {
      assert n != m ==> SameMarket(t, after, n);
    }
  }

  lemma HasCategory(t: Tables, m: Address)
    requires Summed(t) && m in t.markets
    ensures t.markets[m].category in t.categories
  {
  }

  lemma PartChanges(t: Tables, after: Tables, m: Address)
    requires m in t.markets && m in after.markets && after.markets[m].category == t.markets[m].category
    ensures var k, was, now := t.markets[m].category, t.markets[m].openInterest, after.markets[m].openInterest;
      Minus(Part(after, m, k), Part(t, m, k)) == CategoryRow(now - was,
        (if IsFinalized(after, m) then 0.0 else now) - (if IsFinalized(t, m) then 0.0 else was))
  {
    hide IsFinalized;
  }

  // ---------------------------------------------------------------- what each log keeps

  lemma NoMarketsNoSum(t: Tables, c: string)
    requires forall m :: m in t.markets ==> t.markets[m].category != c
    ensures Total(AllIn(t, c)) == 0.0 && Total(OpenIn(t, c)) == 0.0
  {
    assert AllIn(t, c) == map[] && OpenIn(t, c) == map[];
  }

  lemma CategoriesDoNotMatter(t: Tables, after: Tables, c: string)
    requires after.markets == t.markets && after.marketStates == t.marketStates
    ensures AllIn(after, c) == AllIn(t, c) && OpenIn(after, c) == OpenIn(t, c)
  {
  }

  /** A category no market has yet starts at zero. */
  lemma EntryIsSummed(t: Tables, after: Tables, category: string, c: string)
    requires Summed(t) && c in after.categories
    requires after == t.(categories :=
        t.categories[category := if category in t.categories then t.categories[category] else CategoryRow(0.0, 0.0)])
    ensures SummedIn(after, c)
  {
    hide Total, AllIn, OpenIn;
    CategoriesDoNotMatter(t, after, c);
    if c !in t.categories { NoMarketsNoSum(t, c); }
  }

  lemma CreationKeepsSums(t: Tables, m: Address, category: string, numTicks: real)
    requires Summed(t) && m !in t.markets
    ensures Summed(Created(t, m, category, numTicks))
  {
    hide SummedIn;
    var after := Created(t, m, category, numTicks);
    var entered := t.(categories := after.categories);
    forall c | c in after.categories
      ensures SummedIn(after, c)
    {
      EntryIsSummed(t, entered, category, c);
      forall n | n != m
        ensures SameMarket(entered, after, n)
      {
      }
      SumsMove(entered, after, m, c);
    }
  }

  lemma OpenInterestKeepsSums(t: Tables, m: Address, openInterest: real)
    requires Summed(t) && m in t.markets
    ensures Summed(OpenInterestSet(t, m, openInterest))
  {
    hide Summed, Part;
    HasCategory(t, m);
    var after := OpenInterestSet(t, m, openInterest);
    forall n | n != m
      ensures SameMarket(t, after, n)
    {
    }
    hide SameMarket;
    KeptExactlyIf(t, after, m);
    PartChanges(t, after, m);
  }

  /** The open interest set is the market's from then on, no other market's changes; only the last one set counts. */
  lemma OpenInterestIsSet(t: Tables, m: Address, first: real, second: real)
    requires m in t.markets && t.markets[m].category in t.categories
    ensures var after := OpenInterestSet(t, m, second);
      && after.markets == t.markets[m := t.markets[m].(openInterest := second)]
      && OpenInterestSet(OpenInterestSet(t, m, first), m, second) == after
  {
    var twice, once := OpenInterestSet(OpenInterestSet(t, m, first), m, second), OpenInterestSet(t, m, second);
    assert twice.markets == once.markets;
    assert twice.categories == once.categories;
  }

  /** Finalizing keeps the sums exactly when the market was not finalized before, or has no open interest. */
  lemma FinalizationKeepsSums(t: Tables, m: Address)
    requires Summed(t) && m in t.markets
    ensures Summed(Finalized(t, m)) <==> !IsFinalized(t, m) || t.markets[m].openInterest == 0.0
  {
    hide Summed, Part;
    HasCategory(t, m);
    var after := Finalized(t, m);
    forall n | n != m
      ensures SameMarket(t, after, n)
    {
    }
    hide SameMarket;
    KeptExactlyIf(t, after, m);
    PartChanges(t, after, m);
  }

  /** Taking a finalization back keeps the sums exactly when the state below it is not finalized too, or the market
      has no open interest. */
  lemma UnfinalizationKeepsSums(t: Tables, m: Address)
    requires Summed(t) && m in t.markets && IsFinalized(t, m)
    ensures Summed(Unfinalized(t, m)) <==> !IsFinalized(StateDropped(t, m), m) || t.markets[m].openInterest == 0.0
  {
    hide Summed, Part;
    HasCategory(t, m);
    var after := Unfinalized(t, m);
    forall n | n != m
      ensures SameMarket(t, after, n)
    {
    }
    hide SameMarket;
    KeptExactlyIf(t, after, m);
    PartChanges(t, after, m);
  }

  /** Any other new state keeps the sums exactly when it does not replace a finalized one, or the market has no open
      interest: the category is not told. */
  lemma StateChangeKeepsSums(t: Tables, m: Address, state: ReportingState)
    requires Summed(t) && m in t.markets && state != FINALIZED
    ensures Summed(StateSet(t, m, state)) <==> !IsFinalized(t, m) || t.markets[m].openInterest == 0.0
  {
    hide Summed, Part;
    HasCategory(t, m);
    var after := StateSet(t, m, state);
    forall n | n != m
      ensures SameMarket(t, after, n)
    {
    }
    hide SameMarket;
    KeptExactlyIf(t, after, m);
    PartChanges(t, after, m);
  }

  lemma StateRollbackKeepsSums(t: Tables, m: Address)
    requires Summed(t) && m in t.markets && |StatesOf(t, m)| > 0 && !IsFinalized(t, m)
    ensures Summed(StateDropped(t, m)) <==> !IsFinalized(StateDropped(t, m), m) || t.markets[m].openInterest == 0.0
  {
    hide Summed, Part;
    HasCategory(t, m);
    var after := StateDropped(t, m);
    forall n | n != m
      ensures SameMarket(t, after, n)
    {
    }
    hide SameMarket;
    KeptExactlyIf(t, after, m);
    PartChanges(t, after, m);
  }

  /** Removing a finalization undoes it exactly, whatever the tables held. */
  lemma UnfinalizedIsUndone(t: Tables, m: Address)
    requires m in t.markets && t.markets[m].category in t.categories && m in t.marketStates
    ensures IsFinalized(Finalized(t, m), m) && Unfinalized(Finalized(t, m), m) == t
  {
    var after := Unfinalized(Finalized(t, m), m);
    assert after.marketStates[m] == t.marketStates[m];
    assert after.marketStates == t.marketStates;
    assert after.categories == t.categories;
  }

  const EMPTY: Tables := Tables(map[], map[], map[])

  /** A market finalized twice is taken out of its category twice. */
  lemma FinalizedTwice(t: Tables, m: Address)
    requires Summed(t) && m in t.markets && !IsFinalized(t, m)
    ensures Summed(Finalized(t, m))
    ensures Summed(Finalized(Finalized(t, m), m)) <==> t.markets[m].openInterest == 0.0
  {
    hide Summed;
    HasCategory(t, m);
    FinalizationKeepsSums(t, m);
    FinalizationKeepsSums(Finalized(t, m), m);
  }

  /** A market of five ether open interest, in its first state. */
  function Traded(): Tables {
    OpenInterestSet(Created(EMPTY, "0x01", "POLITICS", 10000.0), "0x01", 5.0)
  }

  lemma TradedIsSummed()
    ensures Summed(Traded()) && !IsFinalized(Traded(), "0x01")
    ensures "0x01" in Traded().markets && Traded().markets["0x01"].openInterest == 5.0
  {
    CreationKeepsSums(EMPTY, "0x01", "POLITICS", 10000.0);
    hide Summed;
    OpenInterestKeepsSums(Created(EMPTY, "0x01", "POLITICS", 10000.0), "0x01", 5.0);
  }

  lemma FinalizedTwiceBreaksSums()
    ensures Summed(Traded()) && !Summed(Finalized(Finalized(Traded(), "0x01"), "0x01"))
  {
    hide Summed;
    TradedIsSummed();
    FinalizedTwice(Traded(), "0x01");
  }

  /** A finalized market put back to awaiting finalization, as an expiring fee window does whatever the market's state,
      stays out of its category's non-finalized open interest although it is not finalized. */
  lemma StateOverFinalizedBreaksSums()
    ensures Summed(Finalized(Traded(), "0x01"))
    ensures !Summed(StateSet(Finalized(Traded(), "0x01"), "0x01", AWAITING_FINALIZATION))
  {
    hide Summed;
    TradedIsSummed();
    FinalizationKeepsSums(Traded(), "0x01");
    StateChangeKeepsSums(Finalized(Traded(), "0x01"), "0x01", AWAITING_FINALIZATION);
  }

  // ---------------------------------------------------------------- runs

  datatype Event =
    | MarketCreated(m: Address, category: string, numTicks: real)
    | OpenInterestChanged(m: Address, openInterest: real)
    | StateChanged(m: Address, state: ReportingState)
    | StateTakenBack(m: Address, expected: ReportingState)
    | MarketFinalized(m: Address)
    | FinalizationRemoved(m: Address)

  predicate Accepted(t: Tables, e: Event) {
    var known := e.m in t.markets && t.markets[e.m].category in t.categories;
    match e
    case MarketCreated(m, _, _) => m !in t.markets
    case OpenInterestChanged(_, _) => known
    case StateChanged(_, _) => true
    case StateTakenBack(m, expected) => |StatesOf(t, m)| > 0 && StatesOf(t, m)[|StatesOf(t, m)| - 1] == expected
    case MarketFinalized(_) => known
    case FinalizationRemoved(m) => known && IsFinalized(t, m)
  }

  /** Refused logs leave the tables as they were. */
  function Applied(t: Tables, e: Event): Tables {
    if !Accepted(t, e) then t
    else match e
      case MarketCreated(m, category, numTicks) => Created(t, m, category, numTicks)
      case OpenInterestChanged(m, openInterest) => OpenInterestSet(t, m, openInterest)
      case StateChanged(m, state) => StateSet(t, m, state)
      case StateTakenBack(m, _) => StateDropped(t, m)
      case MarketFinalized(m) => Finalized(t, m)
      case FinalizationRemoved(m) => Unfinalized(t, m)
  }

  function Run(t: Tables, events: seq<Event>): Tables
    decreases |events|
  {
    if events == [] then t else Run(Applied(t, events[0]), events[1..])
  }

  /** No state is put over a finalized one; finalized states come and go with finalization logs only. */
  predicate Orderly(t: Tables, e: Event) {
    match e
    case StateChanged(m, state) => state != FINALIZED && !IsFinalized(t, m)
    case StateTakenBack(_, expected) => expected != FINALIZED
    case MarketFinalized(m) => !IsFinalized(t, m)
    case _ => true
  }

  predicate OrderlyRun(t: Tables, events: seq<Event>)
    decreases |events|
  {
    events == [] || (Orderly(t, events[0]) && OrderlyRun(Applied(t, events[0]), events[1..]))
  }

  /** Only a market's latest state can be the finalized one, and only if the market is known. */
  predicate FinalizedLast(t: Tables, m: Address) {
    var states := StatesOf(t, m);
    && (forall i :: 0 <= i < |states| - 1 ==> states[i] != FINALIZED)
    && (m !in t.markets ==> !IsFinalized(t, m))
  }

  lemma FinalizedStaysLast(t: Tables, e: Event, m: Address)
    requires FinalizedLast(t, m) && Orderly(t, e)
    ensures FinalizedLast(Applied(t, e), m)
  {
    var was, now := StatesOf(t, m), StatesOf(Applied(t, e), m);
    assert forall i :: 0 <= i < |was| && i < |now| ==> now[i] == was[i];
    assert |now| <= |was| + 1;
    if |now| == |was| + 1 {
      assert m == e.m && (|was| > 0 ==> was[|was| - 1] != FINALIZED);
    }
  }

  /** States of a market that is not known concern no category. */
  lemma UnknownStatesKeepSums(t: Tables, after: Tables, m: Address)
    requires Summed(t) && m !in t.markets && after.markets == t.markets && after.categories == t.categories
    requires forall n :: n != m ==> (IsFinalized(after, n) <==> IsFinalized(t, n))
    ensures Summed(after)
  {
    hide IsFinalized, SummedIn;
    forall c | c in t.categories
      ensures SummedIn(after, c)
    {
      assert SummedIn(t, c);
      forall n | n != m
        ensures SameMarket(t, after, n)
      {
      }
      SumsMove(t, after, m, c);
    }
  }

  lemma StepKeepsSums(t: Tables, e: Event)
    requires Summed(t) && Orderly(t, e) && FinalizedLast(t, e.m)
    ensures Summed(Applied(t, e))
  {
    hide Summed;
    if Accepted(t, e) && e.m !in t.markets && !e.MarketCreated? {
      UnknownStatesKeepSums(t, Applied(t, e), e.m);
    } else if Accepted(t, e) {
      match e
      case MarketCreated(m, category, numTicks) => CreationKeepsSums(t, m, category, numTicks);
      case OpenInterestChanged(m, openInterest) => OpenInterestKeepsSums(t, m, openInterest);
      case StateChanged(m, state) => StateChangeKeepsSums(t, m, state);
      case StateTakenBack(m, _) => StateRollbackKeepsSums(t, m);
      case MarketFinalized(m) => FinalizationKeepsSums(t, m);
      case FinalizationRemoved(m) => UnfinalizationKeepsSums(t, m);
    }
  }

  /** Over every orderly run, category open interest is the sum over the category's markets, and its non-finalized part
      the sum over those that are not finalized. */
  lemma {:induction false} EveryRunKeepsSums(t: Tables, events: seq<Event>)
    requires Summed(t) && (forall m :: FinalizedLast(t, m)) && OrderlyRun(t, events)
    ensures Summed(Run(t, events))
    decreases |events|
  {
    if events != [] {
      StepKeepsSums(t, events[0]);
      forall m
        ensures FinalizedLast(Applied(t, events[0]), m)
      {
        FinalizedStaysLast(t, events[0], m);
      }
      EveryRunKeepsSums(Applied(t, events[0]), events[1..]);
    }
  }

  lemma EmptyTablesAreSummed()
    ensures Summed(EMPTY) && forall m :: FinalizedLast(EMPTY, m)
  {
  }

  /** The same from empty tables: the running figures are right from the first log on. */
  lemma EveryRunFromEmptyKeepsSums(events: seq<Event>)
    requires OrderlyRun(EMPTY, events)
    ensures Summed(Run(EMPTY, events))
  {
    hide Summed, FinalizedLast, OrderlyRun, Run;
    EmptyTablesAreSummed();
    EveryRunKeepsSums(EMPTY, events);
  }
}
