/** The timeseries table against the histories it stores, and the zero sum over the accounts of an outcome. */
module AccountLaws {
  import opened FinancialMath
  import opened Results
  import opened ProfitLoss
  import opened PositionSteps
  import opened PositionHistory
  import opened OrderFilled
  import opened FillLaws

  /** One call of the profit-and-loss update, for any account, market and outcome. */
  datatype Entry = Entry(key: Key, update: Update, transactionHash: string)

  function RowsOf(markets: map<Address, Market>, entries: seq<Entry>): seq<Row>
    requires forall i :: 0 <= i < |entries| ==> entries[i].key.marketId in markets
  {
    if entries == [] then []
    else
      var before, e := RowsOf(markets, entries[..|entries| - 1]), entries[|entries| - 1];
      match RowsAfter(before, markets[e.key.marketId], e.key, e.update.delta, e.update.tradePrice, e.transactionHash,
          e.update.tradeData)
      case Err(_) => before
      case Ok(after) => after
  }

  function OwnUpdates(entries: seq<Entry>, key: Key): seq<Update> {
    if entries == [] then []
    else
      var before, e := OwnUpdates(entries[..|entries| - 1], key), entries[|entries| - 1];
      if e.key == key then before + [e.update] else before
  }

  /** An update advances the latest position of its own key and no other. */
  lemma UpdateAdvances(rows: seq<Row>, market: Market, key: Key, u: Update, transactionHash: string)
    ensures var after := RowsAfter(rows, market, key, u.delta, u.tradePrice, transactionHash, u.tradeData);
      if after.Ok? then
        forall k :: Latest(after.value, k) == if k == key then Advance(market, key.account, Latest(rows, key), u)
            else Latest(rows, k)
      else Advance(market, key.account, Latest(rows, key), u) == Latest(rows, key)
  {
    hide NextPosition;
    var after := RowsAfter(rows, market, key, u.delta, u.tradePrice, transactionHash, u.tradeData);
    if after.Ok? && u.delta != 0.0 {
      assert after.value[..|after.value| - 1] == rows;
    }
  }

  /** However the updates of different accounts and outcomes interleave, the latest row of each is its own history. */
  lemma {:induction false} LatestIsOwnHistory(markets: map<Address, Market>, entries: seq<Entry>, key: Key)
    requires forall i :: 0 <= i < |entries| ==> entries[i].key.marketId in markets
    requires key.marketId in markets
    ensures Latest(RowsOf(markets, entries), key) == After(markets[key.marketId], key.account, OwnUpdates(entries, key))
  {
    hide RowsAfter, Advance;
    if entries != [] {
      var before, e := entries[..|entries| - 1], entries[|entries| - 1];
      LatestIsOwnHistory(markets, before, key);
      UpdateAdvances(RowsOf(markets, before), markets[e.key.marketId], e.key, e.update, e.transactionHash);
      if e.key == key {
        var own := OwnUpdates(before, key);
        assert (own + [e.update])[..|own|] == own;
      }
    }
  }

  // ---------------------------------------------------------------- zero sum

  /** Total profit of the accounts in one outcome, at a common last price. */
  function SumOfProfits(rows: seq<Row>, market: Market, id: OutcomeId, accounts: seq<Address>, lastPrice: real): real {
    if accounts == [] then 0.0
    else TotalProfit(market, Latest(rows, Key(accounts[0], id.marketId, id.outcome)), lastPrice)
         + SumOfProfits(rows, market, id, accounts[1..], lastPrice)
  }

  function SumOfPositions(rows: seq<Row>, id: OutcomeId, accounts: seq<Address>): real {
    if accounts == [] then 0.0
    else Latest(rows, Key(accounts[0], id.marketId, id.outcome)).position + SumOfPositions(rows, id, accounts[1..])
  }

  predicate NoDuplicates(accounts: seq<Address>) {
    forall i, j :: 0 <= i < j < |accounts| ==> accounts[i] != accounts[j]
  }

  /** If only one account's position changes, the sums change by what it does. */
  lemma {:induction false} SumsMoveByOne(before: seq<Row>, after: seq<Row>, market: Market, id: OutcomeId,
      accounts: seq<Address>, account: Address, lastPrice: real)
    requires NoDuplicates(accounts)
    requires forall a :: a in accounts && a != account ==>
      Latest(after, Key(a, id.marketId, id.outcome)) == Latest(before, Key(a, id.marketId, id.outcome))
    ensures var was, now :=
        Latest(before, Key(account, id.marketId, id.outcome)), Latest(after, Key(account, id.marketId, id.outcome));
      && SumOfProfits(after, market, id, accounts, lastPrice) - SumOfProfits(before, market, id, accounts, lastPrice)
         == (if account in accounts then TotalProfit(market, now, lastPrice) - TotalProfit(market, was, lastPrice)
             else 0.0)
      && SumOfPositions(after, id, accounts) - SumOfPositions(before, id, accounts)
         == (if account in accounts then now.position - was.position else 0.0)
  {
    hide Latest, TotalProfit;
    if accounts != [] {
      SumsMoveByOne(before, after, market, id, accounts[1..], account, lastPrice);
      assert accounts == [accounts[0]] + accounts[1..];
      assert forall i :: 0 <= i < |accounts[1..]| ==> accounts[1..][i] == accounts[i + 1];
    }
  }

  /** One party's update moves the sums by its marked gain. */
  lemma PartyMovesSums(rows: seq<Row>, market: Market, id: OutcomeId, accounts: seq<Address>, account: Address,
      u: Update, transactionHash: string, lastPrice: real)
    requires NoDuplicates(accounts) && account in accounts && IsParty(account, u)
    ensures var key := Key(account, id.marketId, id.outcome);
      var after := RowsAfter(rows, market, key, u.delta, u.tradePrice, transactionHash, u.tradeData);
      && after.Ok?
      && SumOfProfits(after.value, market, id, accounts, lastPrice)
          == SumOfProfits(rows, market, id, accounts, lastPrice) + MarkedGain(u, lastPrice)
      && SumOfPositions(after.value, id, accounts) == SumOfPositions(rows, id, accounts) + u.delta
  {
    var key := Key(account, id.marketId, id.outcome);
    var after := RowsAfter(rows, market, key, u.delta, u.tradePrice, transactionHash, u.tradeData);
    assert after.Ok?;
    hide RowsAfter, Advance, Latest, TotalProfit, MarkedGain;
    UpdateAdvances(rows, market, key, u, transactionHash);
    SumsMoveByOne(rows, after.value, market, id, accounts, account, lastPrice);
    MarkedStep(market, account, Latest(rows, key), u, lastPrice);
  }

  /** A fill between two accounts moves no sum: what one party gains the other loses. */
  lemma FillKeepsSums(t: Tables, log: Log, accounts: seq<Address>, lastPrice: real)
    requires Filled(t, log).Ok? && NoDuplicates(accounts)
    requires LoggedTrade(t, log).data.creator != log.filler
    requires LoggedTrade(t, log).data.creator in accounts && log.filler in accounts
    ensures var after, id := Filled(t, log).value, LoggedTrade(t, log).key.id;
      var market := t.markets[id.marketId].bounds;
      && SumOfProfits(after.rows, market, id, accounts, lastPrice)
          == SumOfProfits(t.rows, market, id, accounts, lastPrice)
      && SumOfPositions(after.rows, id, accounts) == SumOfPositions(t.rows, id, accounts)
  {
    hide RowsAfter, SumOfProfits, SumOfPositions, IsParty;
    var trade := LoggedTrade(t, log);
    var data, id, market := trade.data, trade.key.id, t.markets[trade.key.id.marketId].bounds;
    var creatorDelta := if data.orderType == Buy then trade.amount else -trade.amount;
    var fillerDelta := if data.orderType == Sell then trade.amount else -trade.amount;
    var c, f := Update(creatorDelta, data.price, Some(data)), Update(fillerDelta, data.price, Some(data));
    PartiesOf(data, c, f);
    PartyMovesSums(t.rows, market, id, accounts, data.creator, c, log.transactionHash, lastPrice);
    var mid := RowsAfter(t.rows, market, Key(data.creator, id.marketId, id.outcome), creatorDelta, data.price,
        log.transactionHash, Some(data)).value;
    PartyMovesSums(mid, market, id, accounts, data.filler, f, log.transactionHash, lastPrice);
    assert MarkedGain(c, lastPrice) + MarkedGain(f, lastPrice) == 0.0;
  }

  lemma PartiesOf(data: TradeData, c: Update, f: Update)
    requires c.tradeData == Some(data) && f.tradeData == Some(data)
    ensures IsParty(data.creator, c) && IsParty(data.filler, f)
  {
  }

  lemma {:induction false} SumsDependOnLatest(before: seq<Row>, after: seq<Row>, market: Market, id: OutcomeId,
      accounts: seq<Address>, lastPrice: real)
    requires forall a ::
        Latest(after, Key(a, id.marketId, id.outcome)) == Latest(before, Key(a, id.marketId, id.outcome))
    ensures SumOfProfits(after, market, id, accounts, lastPrice)
        == SumOfProfits(before, market, id, accounts, lastPrice)
    ensures SumOfPositions(after, id, accounts) == SumOfPositions(before, id, accounts)
  {
    hide Latest, TotalProfit;
    if accounts != [] {
      SumsDependOnLatest(before, after, market, id, accounts[1..], lastPrice);
    }
  }

  /** A fill in another outcome leaves this outcome's positions alone. */
  lemma FillElsewhere(t: Tables, log: Log, id: OutcomeId)
    requires Filled(t, log).Ok? && LoggedTrade(t, log).key.id != id
    ensures forall a ::
        Latest(Filled(t, log).value.rows, Key(a, id.marketId, id.outcome))
        == Latest(t.rows, Key(a, id.marketId, id.outcome))
  {
    hide RowsAfter, Latest, Advance;
    var trade := LoggedTrade(t, log);
    var data, other, market := trade.data, trade.key.id, t.markets[trade.key.id.marketId].bounds;
    var creatorDelta := if data.orderType == Buy then trade.amount else -trade.amount;
    var fillerDelta := if data.orderType == Sell then trade.amount else -trade.amount;
    var c, f := Update(creatorDelta, data.price, Some(data)), Update(fillerDelta, data.price, Some(data));
    var ck, fk := Key(data.creator, other.marketId, other.outcome), Key(data.filler, other.marketId, other.outcome);
    UpdateAdvances(t.rows, market, ck, c, log.transactionHash);
    var mid := RowsAfter(t.rows, market, ck, creatorDelta, data.price, log.transactionHash, Some(data)).value;
    UpdateAdvances(mid, market, fk, f, log.transactionHash);
  }

  /** Both parties of every fill in this outcome are different accounts, and are among `accounts`. */
  ghost predicate PartiesAmong(t: Tables, logs: seq<Log>, id: OutcomeId, accounts: seq<Address>) {
    && (forall i :: 0 <= i < |logs| ==> Refusal(t, logs[i]) == None)
    && (forall i :: 0 <= i < |logs| && LoggedTrade(t, logs[i]).key.id == id ==>
          LoggedTrade(t, logs[i]).data.creator != logs[i].filler)
    && (forall i :: 0 <= i < |logs| && LoggedTrade(t, logs[i]).key.id == id ==>
          LoggedTrade(t, logs[i]).data.creator in accounts && logs[i].filler in accounts)
  }

  lemma TermsStay(t: Tables, log: Log, other: Log)
    requires Filled(t, log).Ok? && Refusal(t, other) == None
    ensures Refusal(Filled(t, log).value, other) == None
        && LoggedTrade(Filled(t, log).value, other) == LoggedTrade(t, other)
  {
  }

  /** Zero sum: over any fills, in this outcome or others, the positions of all accounts in an outcome keep their sum,
      and so do their total profits at any common last price; both sums start at zero. */
  lemma {:induction false} FillsAreZeroSum(t: Tables, logs: seq<Log>, id: OutcomeId, accounts: seq<Address>,
      lastPrice: real)
    requires AllFilled(t, logs).Ok? && NoDuplicates(accounts) && id.marketId in t.markets
    requires PartiesAmong(t, logs, id, accounts)
    ensures var after, market := AllFilled(t, logs).value, t.markets[id.marketId].bounds;
      && SumOfProfits(after.rows, market, id, accounts, lastPrice)
          == SumOfProfits(t.rows, market, id, accounts, lastPrice)
      && SumOfPositions(after.rows, id, accounts) == SumOfPositions(t.rows, id, accounts)
      && (t.rows == [] ==>
          SumOfProfits(after.rows, market, id, accounts, lastPrice) == 0.0 == SumOfPositions(after.rows, id, accounts))
    decreases |logs|
  {
    hide Filled, Refusal, TradeOf, SumOfProfits, SumOfPositions;
    var market := t.markets[id.marketId].bounds;
    if t.rows == [] { NoRowsNoSums(market, id, accounts, lastPrice); }
    if logs != [] {
      var next := Filled(t, logs[0]).value;
      assert Refusal(t, logs[0]) == None;
      if LoggedTrade(t, logs[0]).key.id == id {
        FillKeepsSums(t, logs[0], accounts, lastPrice);
      } else {
        FillElsewhere(t, logs[0], id);
        SumsDependOnLatest(t.rows, next.rows, market, id, accounts, lastPrice);
      }
      FilledKeepsKeys(t, logs[0]);
      forall i | 0 <= i < |logs[1..]|
        ensures Refusal(next, logs[1..][i]) == None && LoggedTrade(next, logs[1..][i]) == LoggedTrade(t, logs[i + 1])
      {
        TermsStay(t, logs[0], logs[i + 1]);
      }
      FillsAreZeroSum(next, logs[1..], id, accounts, lastPrice);
    }
  }

  lemma {:induction false} NoRowsNoSums(market: Market, id: OutcomeId, accounts: seq<Address>, lastPrice: real)
    ensures SumOfProfits([], market, id, accounts, lastPrice) == 0.0 == SumOfPositions([], id, accounts)
  {
    if accounts != [] {
      NoRowsNoSums(market, id, accounts[1..], lastPrice);
    }
  }
}
