/** One account's position in one outcome, and the timeseries of rows that carries it from trade to trade. */
module ProfitLoss {
  import opened FinancialMath
  import opened Results

  type Address = string

  /** What a row carries to the next one. `average` is the average open price less the market's minimum price. */
  datatype Position = Position(average: real, position: real, profit: real, realizedCost: real, frozenFunds: real)

  /** The state of an account that has no row yet. */
  const NO_POSITION: Position := Position(0.0, 0.0, 0.0, 0.0, 0.0)

  datatype OrderType = Buy | Sell

  datatype CreatorOrFiller = Creator | Filler

  /** The parts of a trades row that decide frozen funds. */
  datatype TradeData = TradeData(
    orderType: OrderType, creator: Address, filler: Address, price: real,
    numCreatorTokens: real, numCreatorShares: real, numFillerTokens: real, numFillerShares: real)

  datatype FrozenFundsEvent =
    | ClaimProceeds
    | Trade(longOrShort: PositionType, creatorOrFiller: CreatorOrFiller, realizedProfitDelta: real, data: TradeData)

  /** Without trade data the update is a claim of winnings; with it, the account must be a party to the trade. */
  function MakeFrozenFundsEvent(account: Address, realizedProfitDelta: real,
      tradeData: Option<TradeData>): Result<FrozenFundsEvent> {
    match tradeData
    case None => Ok(ClaimProceeds)
    case Some(data) =>
      if account == data.creator then
        Ok(Trade(if data.orderType == Buy then Long else Short, Creator, realizedProfitDelta, data))
      else if account == data.filler then
        Ok(Trade(if data.orderType == Buy then Short else Long, Filler, realizedProfitDelta, data))
      else Err("expected passed trade data to have creator or filler equal to passed account")
  }

  function GetFrozenFundsAfterEvent(market: Market, frozenFunds: real, event: FrozenFundsEvent): real {
    match event
    case ClaimProceeds => 0.0
    case Trade(longOrShort, creatorOrFiller, realizedProfitDelta, data) =>
      var mySharesSent := if creatorOrFiller == Creator then data.numCreatorShares else data.numFillerShares;
      var priceReceivedForMySharesSent :=
        if longOrShort == Short then data.price - market.minPrice else market.maxPrice - data.price;
      var myTokensReceived := mySharesSent * priceReceivedForMySharesSent;
      var myTokensSent := if creatorOrFiller == Creator then data.numCreatorTokens else data.numFillerTokens;
      frozenFunds - myTokensReceived + myTokensSent + realizedProfitDelta
  }

  /** The next row, all but its frozen funds. */
  function Carry(market: Market, prev: Position, positionDelta: real, tradePrice: real): Position {
    var net, delta := ToShares(prev.position), ToShares(positionDelta);
    var price := GetTradePriceMinusMinPrice(market, tradePrice);
    Position(
      GetNextAverage(net, prev.average, delta, price),
      GetNextNetPosition(net, delta).magnitude,
      prev.profit + GetTradeRealizedProfitDelta(market, net, delta, prev.average, price),
      prev.realizedCost + GetTradeRealizedCostDelta(market, net, delta, prev.average),
      prev.frozenFunds)
  }

  function RealizedProfitDelta(market: Market, prev: Position, positionDelta: real, tradePrice: real): real {
    GetTradeRealizedProfitDelta(market, ToShares(prev.position), ToShares(positionDelta), prev.average,
                                GetTradePriceMinusMinPrice(market, tradePrice))
  }

  /** The next row's position, or the error that stops the update. */
  function NextPosition(market: Market, account: Address, prev: Position, positionDelta: real, tradePrice: real,
      tradeData: Option<TradeData>): Result<Position> {
    match MakeFrozenFundsEvent(account, RealizedProfitDelta(market, prev, positionDelta, tradePrice), tradeData)
    case Err(e) => Err(e)
    case Ok(event) =>
      var frozenFunds := GetFrozenFundsAfterEvent(market, prev.frozenFunds, event);
      Ok(Carry(market, prev, positionDelta, tradePrice).(frozenFunds := frozenFunds))
  }

  // ---------------------------------------------------------------- the timeseries

  datatype Key = Key(account: Address, marketId: Address, outcome: nat)

  datatype Row = Row(key: Key, position: Position, quantityOpened: real, transactionHash: string)

  /** The position of the last row stored for `key`. */
  function Latest(rows: seq<Row>, key: Key): Position {
    if rows == [] then NO_POSITION
    else if rows[|rows| - 1].key == key then rows[|rows| - 1].position
    else Latest(rows[..|rows| - 1], key)
  }

  function WithoutTransaction(rows: seq<Row>, transactionHash: string): seq<Row> {
    if rows == [] then []
    else if rows[0].transactionHash == transactionHash then WithoutTransaction(rows[1..], transactionHash)
    else [rows[0]] + WithoutTransaction(rows[1..], transactionHash)
  }

  /** `after` is `before` without the rows of a transaction: the rows at exactly the places `kept`, in their order. */
  ghost predicate RowsKept(before: seq<Row>, transactionHash: string, after: seq<Row>, kept: seq<nat>) {
    && |after| == |kept|
    && (forall j, k :: 0 <= j < k < |kept| ==> kept[j] < kept[k])
    && (forall j :: 0 <= j < |kept| ==>
          kept[j] < |before| && after[j] == before[kept[j]] && after[j].transactionHash != transactionHash)
    && (forall i :: 0 <= i < |before| && before[i].transactionHash != transactionHash ==> i in kept)
  }

  lemma {:induction false} WithoutTransactionAppend(rows: seq<Row>, row: Row, transactionHash: string)
    ensures WithoutTransaction(rows + [row], transactionHash)
         == WithoutTransaction(rows, transactionHash) + if row.transactionHash == transactionHash then [] else [row]
  {
    if rows == [] {
      assert (rows + [row])[1..] == [];
    } else {
      WithoutTransactionAppend(rows[1..], row, transactionHash);
      assert (rows + [row])[1..] == rows[1..] + [row];
    }
  }

  /** Deleting a transaction keeps every other row, each once and in its order. */
  lemma {:induction false} OthersAreKept(rows: seq<Row>, transactionHash: string) returns (kept: seq<nat>)
    ensures RowsKept(rows, transactionHash, WithoutTransaction(rows, transactionHash), kept)
  {
    kept := [];
    if rows != [] {
      hide RowsKept, WithoutTransaction;
      var n := |rows| - 1;
      var before, last := rows[..n], rows[n];
      assert rows == before + [last];
      kept := OthersAreKept(before, transactionHash);
      WithoutTransactionAppend(before, last, transactionHash);
      KeepOneMore(before, last, transactionHash, WithoutTransaction(before, transactionHash), kept);
      if last.transactionHash != transactionHash {
        kept := kept + [n];
      } else {
        assert WithoutTransaction(before, transactionHash) + [] == WithoutTransaction(before, transactionHash);
      }
    }
  }

  lemma KeepOneMore(before: seq<Row>, last: Row, transactionHash: string, after: seq<Row>, kept: seq<nat>)
    requires RowsKept(before, transactionHash, after, kept)
    ensures
      if last.transactionHash == transactionHash then RowsKept(before + [last], transactionHash, after, kept)
      else RowsKept(before + [last], transactionHash, after + [last], kept + [|before|])
  {
    var more := kept + [|before|];
    assert more[|kept|] == |before|;
    assert forall j :: 0 <= j < |kept| ==> more[j] == kept[j];
  }

  /** Rolling an update back restores the rows from before it, if its transaction had written none of them. */
  lemma RemovalUndoesUpdate(rows: seq<Row>, market: Market, key: Key, positionDelta: real, tradePrice: real,
      transactionHash: string, tradeData: Option<TradeData>)
    requires forall i :: 0 <= i < |rows| ==> rows[i].transactionHash != transactionHash
    requires RowsAfter(rows, market, key, positionDelta, tradePrice, transactionHash, tradeData).Ok?
    ensures
      var after := RowsAfter(rows, market, key, positionDelta, tradePrice, transactionHash, tradeData).value;
      WithoutTransaction(after, transactionHash) == rows
  {
    hide NextPosition;
    NothingToRemove(rows, transactionHash);
    if positionDelta != 0.0 {
      var after := RowsAfter(rows, market, key, positionDelta, tradePrice, transactionHash, tradeData).value;
      assert after == rows + [after[|rows|]];
      WithoutTransactionAppend(rows, after[|rows|], transactionHash);
    }
  }

  lemma {:induction false} NothingToRemove(rows: seq<Row>, transactionHash: string)
    requires forall i :: 0 <= i < |rows| ==> rows[i].transactionHash != transactionHash
    ensures WithoutTransaction(rows, transactionHash) == rows
  {
    if rows != [] {
      NothingToRemove(rows[1..], transactionHash);
    }
  }

  /** The rows after an update: one more, or the same ones when nothing is traded. */
  function RowsAfter(rows: seq<Row>, market: Market, key: Key, positionDelta: real, tradePrice: real,
      transactionHash: string, tradeData: Option<TradeData>): Result<seq<Row>> {
    if positionDelta == 0.0 then Ok(rows)
    else
      var prev := Latest(rows, key);
      match NextPosition(market, key.account, prev, positionDelta, tradePrice, tradeData)
      case Err(e) => Err(e)
      case Ok(next) =>
        Ok(rows + [Row(key, next, GetTradeQuantityOpened(ToShares(prev.position), ToShares(positionDelta)),
            transactionHash)])
  }

  class ProfitLossTimeseries {
    var rows: seq<Row>

    constructor ()
      ensures rows == []
    {
      rows := [];
    }

    /** Reads the latest row of the account in the outcome and appends the next one. */
    method UpdateProfitLoss(market: Market, key: Key, positionDelta: real, tradePrice: real,
        transactionHash: string, tradeData: Option<TradeData>)
      returns (outcome: Result<()>)
      modifies this
      ensures match RowsAfter(old(rows), market, key, positionDelta, tradePrice, transactionHash, tradeData)
        case Ok(after) => outcome.Ok? && rows == after
        case Err(e) => outcome == Err(e) && rows == old(rows)
    {
      if positionDelta == 0.0 { return Ok(()); }
      var delta := ToShares(positionDelta);
      var price := GetTradePriceMinusMinPrice(market, tradePrice);
      var prev := Latest(rows, key);
      var net := ToShares(prev.position);
      var tradeQuantityOpened := GetTradeQuantityOpened(net, delta);
      var tradeRealizedProfitDelta := GetTradeRealizedProfitDelta(market, net, delta, prev.average, price);
      var event := MakeFrozenFundsEvent(key.account, tradeRealizedProfitDelta, tradeData);
      if event.Err? { return Err(event.error); }
      var next := Position(
        GetNextAverage(net, prev.average, delta, price),
        GetNextNetPosition(net, delta).magnitude,
        prev.profit + tradeRealizedProfitDelta,
        prev.realizedCost + GetTradeRealizedCostDelta(market, net, delta, prev.average),
        GetFrozenFundsAfterEvent(market, prev.frozenFunds, event.value));
      rows := rows + [Row(key, next, tradeQuantityOpened, transactionHash)];
      outcome := Ok(());
    }

    /** Rolling back a transaction deletes every row it wrote, and keeps all others in their order. */
    method UpdateProfitLossRemoveRow(transactionHash: string)
      modifies this
      ensures exists kept :: RowsKept(old(rows), transactionHash, rows, kept)
      ensures rows == WithoutTransaction(old(rows), transactionHash)
    {
      ghost var kept := OthersAreKept(rows, transactionHash);
      rows := WithoutTransaction(rows, transactionHash);
    }
  }
}
