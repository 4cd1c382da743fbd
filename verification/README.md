# augur-node: a verified model

augur-node replays the logs of the Augur contracts into tables and derives financial figures from them. This project
models the parts of it whose results depend on more than one step, and proves what those results mean:

- **The simulated order book and the liquidity metric** (`SimulatedOrderBook`, `OrderBookLaws`, `OutcomeSpread`,
  `Liquidity`). Orders are mutable objects, taken best first and in place. Complete sets are sold into the book in
  increments until the return falls below what each spread percent allows. The book's average price never rises, so a
  single pass settles every spread percent, within a bounded number of iterations.
- **Position accounting** (`FinancialMath`, `ProfitLoss`, `PositionSteps`, `PositionHistory`). Each trade extends,
  reduces, closes or reverses a position; the results say what profit, cost, average price and frozen funds mean after
  any history of trades and claims.
- **Fills and their removal** (`OrderFilled`, `FillLaws`, `AccountLaws`, `FillHistories`, `RebuildVolume`,
  `VolumeRuns`, `FillExamples`). The running volumes are compared with the trades table and with a rebuild from scratch,
  fills are undone in any order, every position is the net of the stored trades, and the two parties of every fill sum
  to zero.
- **Category open interest** (`Categories`, `CategoryLaws`), kept by increments through trading, finalization and
  its rollback.
- **Dispute rounds, fee windows and time buckets** (`Disputes`, `DisputeRounds`, `FeeWindows`, `Buckets`), as state
  machines with invariants over whole runs, and a loop that overwrites the very timestamps it searches.

`RealMath` and `Results` hold small facts about reals, and optional and failing results.

Money, prices and share quantities are exact reals. Where the source divides to get an average price, the effect of
rounding is bounded separately (`PositionHistory.DriftIsBounded`). Tables are maps and sequences held in classes; the log
processors are methods proved against functions on a snapshot of the tables, and the laws are lemmas about those
functions. A processor that fails leaves its tables to the enclosing database transaction, which restores them:
`OrderFilled.Database` does so itself, and the category processors state only what accepted logs leave.

## Where the code differs from what one would expect

All but the last are properties the code has only under a condition; each is proved with its exact condition and with an
input for which it fails.

- A second fill of one order in one block counts the first stored fill again, so running volumes leave the trades table
  behind unless both fills weigh the same (`RebuildVolume.FillKeepsAgreement`, `FillExamples.TwoFillsInOneBlock`). Without
  such fills they never do, over any run (`VolumeRuns.RunKeepsAgreement`).
  Removing one of them deletes both (`RebuildVolume.RemovalKeepsAgreement`, `FillExamples.OneOfTwoRemoved`).
- Removing fills restores an order's amounts, but gives it the state its amount calls for, which need not be the state it
  had, such as canceled (`FillLaws.UndoIsExact`, `FillExamples.UndoneOrderIsOpen`). The processor accepts a fill of a
  canceled order, though the contracts do not emit one.
- A row picked at several time buckets is one object, so earlier buckets end up showing the last bucket's timestamp
  (`Buckets.StampIsKept`, `OneRowTwoBuckets`).
- The default row's own outcome number replaces that of the series it stands for, so a bucket before an outcome's first
  row shows it under outcome zero (`Buckets.ShownOutcomeIsSeriesOutcome`, `LaterOutcomeShowsDefault`).
- A state put over a finalized market, or a second finalization, makes the category's non-finalized open interest wrong
  unless the market has no open interest (`CategoryLaws.StateChangeKeepsSums`, `StateOverFinalizedBreaksSums`,
  `FinalizationKeepsSums`, `FinalizedTwiceBreaksSums`). An expiring fee window puts its markets to awaiting finalization
  without looking at their state.
- The UNION in the stake queries drops a stake equal to another one on the same payout (`DisputeRounds.UnionCountsAllStakes`,
  `UnionDropsEqualStakes`); when every round gathers its bond, as the contracts have it, this never happens.
- Taking an initial report back leaves its payout stored and marked, so a new report for another payout leaves two marked
  until a round is completed (`DisputeRounds.ReportMarksItsPayout`, `ReportedAgainMarksTwo`).
- The comment at `src/utils/liquidity.ts:431` takes an increment without proceeds to mean an empty book. Orders priced at
  the market's bound give none either; what holds, and is enough, is that nothing more is ever earned
  (`Liquidity.NothingMore`).

## Model

| member | source | states |
|---|---|---|
| SimulatedOrderBook.TakeBest | src/utils/simulated-order-book.ts:139-182 | proceeds and remaining book are those of walking the levels from the front; used-up orders are emptied and dropped, the list returned is a suffix, and a dry run changes no order object |
| SimulatedOrderBook.OrderBook.constructor | src/utils/simulated-order-book.ts:184-188 | the book owns the two given sides |
| SimulatedOrderBook.OrderBook.CloseLongFillOnly | src/utils/simulated-order-book.ts:202-216 | the shares sold change hands at the trade prices of the best bids and earn what those come to above the market's minimum price; the asks are left alone, and the bids too on a dry run |
| SimulatedOrderBook.OrderBook.CloseLongFillOnlyWithFeeAdjustment | src/utils/simulated-order-book.ts:218-221 | the same sale, in terms of the bids, with proceeds over one minus the fee rate |
| SimulatedOrderBook.OrderBook.CloseShortFillOnly | src/utils/simulated-order-book.ts:223-236 | the shares bought change hands at the trade prices of the best asks and earn what those come to below the market's maximum price; the bids are left alone, and the asks too on a dry run |
| SimulatedOrderBook.OrderBook.CloseShortFillOnlyWithFeeAdjustment | src/utils/simulated-order-book.ts:238-241 | the same purchase, in terms of the asks, with proceeds over one plus the fee rate |
| SimulatedOrderBook.ProceedsOfOffers | src/utils/simulated-order-book.ts:153-177 | what taking earns, in terms of the orders: a sale what the shares change hands for less the minimum price for each, a purchase the maximum price for each less what they change hands for |
| SimulatedOrderBook.SharesFilledIs | src/utils/simulated-order-book.ts:160-176 | the shares that change hands are those asked for or all that are offered, whichever are fewer |
| OrderBookLaws.TakesCompose | src/utils/simulated-order-book.ts:153-181 | taking a and then b earns the same and leaves the same book as taking a + b |
| OrderBookLaws.RemainingQuantity | src/utils/simulated-order-book.ts:163-176 | what remains is the total less what was asked for, down to zero |
| OrderBookLaws.RemainingRanked | src/utils/simulated-order-book.ts:163-176 | a book sorted best first stays so |
| OrderBookLaws.ProceedsRise | src/utils/simulated-order-book.ts:164-172 | proceeds never fall and rise by at most the best share price per share |
| OrderBookLaws.AverageFalls | src/utils/liquidity.ts:396-399 | the average earned per share never rises with the amount sold |
| OrderBookLaws.MarginFalls | src/utils/liquidity.ts:396-399 | each further stretch of shares earns no more per share than the one before |
| OrderBookLaws.ProceedsOfAll | src/utils/simulated-order-book.ts:153-181 | asking for everything or more earns the value of the whole book |
| OrderBookLaws.BookValueOfOffers | src/utils/simulated-order-book.ts:153-172 | the value of a whole side is the sum, over its orders, of quantity times the trade price above the minimum for bids, below the maximum for asks |
| OrderBookLaws.BestFirstIsOptimal | src/utils/liquidity.ts:396-399 | no way of taking at most that many shares from the book earns more than best first |
| OrderBookLaws.BestFirstIsAttained | src/utils/simulated-order-book.ts:163-176 | best first is itself such a way, and earns exactly the proceeds |
| OutcomeSpread.TakeFromBidsOrAsks | src/utils/liquidity.ts:316-349 | the value taken is what the shares on offer change hands for and the rest at the market's bound; the separately written closes find the same: n times the minimum price more than a sale's proceeds, or n times the maximum price less a purchase's |
| OutcomeSpread.GetOutcomeSpread | src/utils/liquidity.ts:263-309 | n complete sets are measured, at least the included share of each side and exactly that of one, or one set; the spread is one minus the fee-free return on selling them, floored at zero, between zero and one also on a crossed book; with everything included the return is the orders' whole value over the cost of n sets |
| OutcomeSpread.SharesMeasured | src/utils/liquidity.ts:267-279 | the sets measured are at least the included share of either side, and equal that of one of them, or one if both come to nothing |
| OutcomeSpread.WholeBookIsMeasured | src/utils/liquidity.ts:263-309 | with everything included, the return is that of all orders on both sides |
| OutcomeSpread.UncrossedReturn | src/utils/liquidity.ts:295-304 | on an uncrossed book that return is between zero and the best bid and ask's share of the range, so the floor never applies |
| OutcomeSpread.EmptyBookSpread | src/utils/liquidity.ts:274-278 | an empty book is measured on one complete set and has a spread of one |
| Liquidity.ReturnNeverRises | src/utils/liquidity.ts:396-427 | the return on investment never rises from one iteration to any later one, also across the switch to larger increments |
| Liquidity.NothingMore | src/utils/liquidity.ts:425-431 | after an iteration without proceeds nothing more is ever earned |
| Liquidity.SettledStays | src/utils/liquidity.ts:424-438 | a spread percent disqualified once stays disqualified |
| Liquidity.BoundSellsEverything | src/utils/liquidity.ts:403-413 | one iteration before the bound, both sides have been sold |
| Liquidity.Schedule | src/utils/liquidity.ts:384-413 | one increment at a time for the first hundred thousand iterations, a hundred million at a time after |
| Liquidity.BoundInFigures | src/utils/liquidity.ts:384-413 | the bound is one more than the least number of iterations that cover the larger side, in either phase |
| Liquidity.SettledAtBound | src/utils/liquidity.ts:384-440 | every spread percent is settled within the iteration bound, in both phases |
| Liquidity.FirstSettled | src/utils/liquidity.ts:424-438 | the iteration that settles a spread percent exists, is within the bound, and none before it settles it |
| Liquidity.QualifyingMeans | src/utils/liquidity.ts:424-428 | a number of iterations qualifies exactly when the fee-adjusted tokens earned are at least one less the spread percent of the cost of the sets sold |
| Liquidity.RecordedIsLargestQualifying | src/utils/liquidity.ts:424-439 | the amount recorded for a spread percent is attained by a qualifying number of iterations and is the most any such number earns |
| Liquidity.FullSpreadRecordsWholeBook | src/utils/liquidity.ts:367-373 | at a spread percent of one the amount recorded is the fee-adjusted value of the whole book, whatever the increment |
| Liquidity.WiderSpreadRecordsMore | src/utils/liquidity.ts:396-400 | a wider spread percent is settled no earlier and records no less |
| Liquidity.SortAscendingSorts | src/utils/liquidity.ts:400-400 | the spread percents are put in ascending order, none lost |
| Liquidity.SellsOneStep | src/utils/liquidity.ts:412-422 | selling one increment into what is left adds what the run total rises by and leaves the next state |
| Liquidity.SellCompleteSets | src/utils/liquidity.ts:417-421 | both halves are sold into their sides, with both fee adjustments |
| Liquidity.GetLiquidity | src/utils/liquidity.ts:387-444 | one result per spread percent, ascending, each the amount a run for it alone on the starting book records; amounts never fall; from one hundred percent on it is the bids' quantity times price above the minimum, over one minus the fee rate, and the asks' quantity times price below the maximum, over one plus it; iterations stay within the bound |
| ProfitLoss.ProfitLossTimeseries.UpdateProfitLoss | src/blockchain/log-processors/profit-loss/update-profit-loss.ts:61-152 | appends the row that follows the account's latest one in the outcome, nothing for a zero delta, and fails on trade data the account is no party to |
| ProfitLoss.ProfitLossTimeseries.UpdateProfitLossRemoveRow | src/blockchain/log-processors/profit-loss/update-profit-loss.ts:154-159 | the rows left are the old rows at exactly the places of other transactions, each once and in its order |
| ProfitLoss.RemovalUndoesUpdate | src/blockchain/log-processors/profit-loss/update-profit-loss.ts:151-159 | removing an update whose transaction wrote nothing before restores the rows from before it |
| PositionSteps.ZeroSignIsIrrelevant | src/utils/dimension-quantity.ts:56-62 | no quantity, average or profit computed from a zero position depends on the sign the zero carries |
| PositionSteps.StepByKind | src/utils/financial-math.ts:409-450 | quantities opened and closed and the next average price, in each of the four ways a trade meets a position |
| PositionSteps.QuantitySplits | src/utils/financial-math.ts:433-450 | opened plus closed is the size of the trade, and no more is closed than held |
| PositionSteps.UnrealizedProfitSigned | src/utils/financial-math.ts:536-569 | unrealized profit is the signed position times the price move, for longs and shorts alike |
| PositionSteps.RealizedProfitSigned | src/utils/financial-math.ts:452-488 | realized profit is the signed quantity closed times the price move |
| PositionSteps.TotalProfitStep | src/utils/financial-math.ts:482-495 | one trade adds exactly its own mark-to-market gain to the total profit |
| PositionSteps.TotalCostStep | src/utils/financial-math.ts:452-472 | one trade adds to the total cost exactly what it pays for the shares it opens |
| PositionHistory.MarkToMarket | src/utils/financial-math.ts:549-599 | after any trades, realized plus unrealized profit at any last price is the sum of delta times (last price less trade price) |
| PositionHistory.ProfitIgnoresOrder | src/utils/financial-math.ts:594-599 | position and total profit do not depend on the order of the trades |
| PositionHistory.GainsIgnoreOrder | src/utils/financial-math.ts:594-599 | marked gains and net position are the same for any reordering |
| PositionHistory.TotalCostIsEverythingPaid | src/utils/financial-math.ts:142-147 | total cost is the share price paid for everything the trades ever opened |
| PositionHistory.AverageIsBetweenOpeningPrices | src/utils/financial-math.ts:409-431 | the average price of an open position lies between the least and greatest price that opened it |
| PositionHistory.RealizedCostNeverFalls | src/utils/financial-math.ts:467-472 | realized cost never falls while trades are priced within the market's bounds |
| PositionHistory.DriftIsBounded | src/utils/financial-math.ts:425-430 | with each division off by at most eps, total profit drifts by at most eps per share held after a trade that divided |
| PositionHistory.FrozenFundsAreUnrealizedCost | src/blockchain/log-processors/profit-loss/frozen-funds.ts:48-89 | for trades paid in full and claims, frozen funds less unrealized cost is the display range times the shares closed but not sent |
| PositionHistory.FrozenFundsMatch | src/blockchain/log-processors/profit-loss/frozen-funds.ts:48-89 | when closed shares are always paid for in shares, frozen funds equal unrealized cost |
| PositionHistory.ClaimClears | src/blockchain/log-processors/profit-loss/frozen-funds.ts:49-56 | a claim leaves no position, no unrealized cost and no frozen funds |
| OrderFilled.Database.UpdateVolumetrics | src/blockchain/log-processors/order-filled/update-volumetrics.ts:101-112 | counts the first stored trade under the key in or out of its market and outcome, or changes nothing |
| OrderFilled.Database.IncrementMarketVolume | src/blockchain/log-processors/order-filled/update-volumetrics.ts:32-44 | the market's volume and share volume move by the trade, no other row changes |
| OrderFilled.Database.IncrementOutcomeVolume | src/blockchain/log-processors/order-filled/update-volumetrics.ts:46-60 | the outcome's volume and share volume move by the trade, no other row changes |
| OrderFilled.Database.UpdateOrder | src/blockchain/log-processors/order-filled/update-order.ts:17-29 | the order's amount and escrow go down by the fill and its state follows the amount left |
| OrderFilled.Database.ProcessOrderFilledLog | src/blockchain/log-processors/order-filled/index.ts:22-96 | trade, volumes, order and both parties' rows all change, or the log fails and nothing does |
| OrderFilled.Database.ProcessOrderFilledLogRemoval | src/blockchain/log-processors/order-filled/index.ts:98-148 | the trades under the key go, volumes and order move back, the transaction's rows go; or nothing changes |
| FillLaws.FillMovesVolume | src/blockchain/log-processors/order-filled/update-volumetrics.ts:101-112 | a fill moves every volume away from the trades table by exactly the difference between the first trade under its key and its own |
| FillLaws.RemovalMovesVolume | src/blockchain/log-processors/order-filled/index.ts:127-128 | a removal moves every volume away from the trades table by exactly the other trades under its key |
| FillLaws.FillMovesOrder | src/blockchain/log-processors/order-filled/update-order.ts:17-29 | an order's remaining amounts always keep in step with the trades table on a fill |
| FillLaws.RemovalMovesOrder | src/blockchain/log-processors/order-filled/index.ts:128-129 | on a removal they leave it by the trades deleted beyond the log's own |
| FillLaws.FillsHold | src/blockchain/log-processors/order-filled/index.ts:22-96 | after any fresh fills every running figure has moved with the trades table, the trades are appended and the new rows belong to their transactions |
| FillLaws.RemovalsHold | src/blockchain/log-processors/order-filled/index.ts:98-148 | removing exactly the stored fills, in any order, succeeds and leaves none |
| FillLaws.UndoFills | src/blockchain/log-processors/order-filled/index.ts:22-148 | any fills followed by their removals in any order restore trades, volumes, order amounts and escrow, and profit-and-loss rows |
| FillLaws.UndoIsExact | src/blockchain/log-processors/order-filled/update-order.ts:25-28 | every table is restored exactly when each filled order had the state its amount calls for |
| AccountLaws.UpdateAdvances | src/blockchain/log-processors/profit-loss/update-profit-loss.ts:78-88 | an update advances the latest position of its own account and outcome and no other |
| AccountLaws.LatestIsOwnHistory | src/blockchain/log-processors/profit-loss/update-profit-loss.ts:78-152 | however updates interleave, each account's latest row in an outcome is the result of its own updates alone |
| AccountLaws.FillKeepsSums | src/blockchain/log-processors/order-filled/index.ts:88-89 | a fill between two accounts changes neither the sum of positions nor the sum of total profits at a common price |
| AccountLaws.FillsAreZeroSum | src/blockchain/log-processors/order-filled/index.ts:88-89 | over any fills, in this outcome or others, both sums stay as they were, zero from an empty table |
| FillHistories.ProcessedExactlyIf | src/blockchain/log-processors/order-filled/index.ts:22-78 | a log is processed exactly when its token, market, order and outcome are stored |
| FillHistories.RemovedExactlyIf | src/blockchain/log-processors/order-filled/index.ts:98-128 | and taken back exactly when, besides, a trade is stored under its key |
| FillHistories.StoredTradeIsLogged | src/blockchain/log-processors/order-filled/index.ts:55-78 | every column of the stored trade, from the log, its token and its order |
| FillHistories.FillMovesPositions | src/blockchain/log-processors/order-filled/index.ts:88-89 | the creator of a filled buy order gains the shares and the filler loses them, the other way round for a sell, and no other position moves |
| FillHistories.FillsKeepHistories | src/blockchain/log-processors/order-filled/index.ts:22-96 | over any fills, every account's latest row in an outcome is what its own trades in the table make of it |
| FillHistories.PositionsAreNetShares | src/blockchain/log-processors/order-filled/index.ts:88-89 | from empty tables, a position is the shares bought less those sold by the stored trades, and total profit their gain marked to any last price |
| FillHistories.PaidUpdates | src/blockchain/log-processors/profit-loss/update-profit-loss.ts:167-190 | both updates of a trade paid in full are each party's own and paid in full by that party |
| FillHistories.FillsFreezeUnrealizedCost | src/blockchain/log-processors/profit-loss/frozen-funds.ts:48-89 | from empty tables, over any fills paid in full, frozen funds less unrealized cost is the display range times the shares closed but not sent |
| FillHistories.VolumeOfPaidTrade | src/blockchain/log-processors/order-filled/update-volumetrics.ts:14-30 | the volume of a paid trade is the cost of its complete sets less, for each share one side sent beyond the other's, that side's share price |
| FillHistories.VolumeIsAtMostCost | src/blockchain/log-processors/order-filled/update-volumetrics.ts:14-30 | it is at most that cost, and equal exactly when both sent equally many shares or the side that sent more had a share price of zero |
| FillHistories.RowRecordsOpened | src/blockchain/log-processors/profit-loss/update-profit-loss.ts:90-151 | an appended row records as opened the shares now held that were not held before on the same side |
| RebuildVolume.CalculateVolumeForAllMarkets | src/blockchain/rebuild-volume-for-all-markets.ts:36-82 | fails exactly on a trade of an unknown market; otherwise the maps hold the totals of exactly the markets and outcomes traded |
| RebuildVolume.CountedKeepsComputed | src/blockchain/rebuild-volume-for-all-markets.ts:56-75 | counting one more trade into the nested maps keeps them the totals of the trades so far |
| RebuildVolume.FillKeepsAgreement | src/blockchain/log-processors/order-filled/update-volumetrics.ts:106-112 | a fill keeps all volumes equal to the trades' totals exactly when the first trade under its key weighs what it does |
| RebuildVolume.SecondFillInBlockBreaksAgreement | src/blockchain/log-processors/order-filled/update-volumetrics.ts:106-107 | two fills of one order in one block for different amounts break that agreement |
| RebuildVolume.RemovalKeepsAgreement | src/blockchain/log-processors/order-filled/index.ts:127-128 | a removal keeps it exactly when the other trades under the key add up to nothing |
| VolumeRuns.RunKeepsAgreement | src/blockchain/log-processors/order-filled/index.ts:22-148 | over every run of fills and removals, interleaved in any way, with one fill of an order in a block at a time, all volumes stay equal to the trades' totals |
| VolumeRuns.RunKeepsFigures | src/blockchain/log-processors/order-filled/index.ts:22-148 | over every such run in which removals take back the fill that is stored, every volume and every order's remaining amount and escrow moves with the trades table |
| VolumeRuns.OrderIsWhatTradesLeave | src/blockchain/log-processors/order-filled/update-order.ts:17-29 | from no trades, an order's remaining amount is its first amount less what its stored trades fill |
| VolumeRuns.OrderStateTellsTrades | src/blockchain/log-processors/order-filled/update-order.ts:17-29 | after any log of such a run the order it touched is filled exactly when its stored trades use up its first amount, and open otherwise |
| VolumeRuns.FreshFillsKeepAgreement | src/blockchain/log-processors/order-filled/index.ts:22-96 | the same for fills alone, by a condition on the logs before the run |
| VolumeRuns.IncrementalIsRebuilt | src/blockchain/rebuild-volume-for-all-markets.ts:31-35 | built log by log from zero, every market's and outcome's volume is what rebuilding from scratch finds, and the rebuild does not fail |
| VolumeRuns.RebuildAfterRun | src/blockchain/rebuild-volume-for-all-markets.ts:36-82 | the rebuild, run on such tables, returns the stored volumes |
| VolumeRuns.MarketIsSumOfOutcomesAfterRun | src/blockchain/log-processors/order-filled/update-volumetrics.ts:32-60 | built log by log from zero, a market's volume is the sum of its outcomes' volumes |
| FillExamples.TwoFillsInOneBlock | src/blockchain/log-processors/order-filled/update-volumetrics.ts:106-112 | a concrete order, filled for one share and then for two in one block, after which volumes are not the trades' totals |
| FillExamples.OneRemovalTakesBothTrades | src/blockchain/log-processors/order-filled/index.ts:127-128 | two equal fills under one key keep the volumes, and removing one of them breaks them |
| FillExamples.OneOfTwoRemoved | src/blockchain/log-processors/order-filled/index.ts:127-128 | a concrete order for which it does |
| FillExamples.UndoneOrderIsOpen | src/blockchain/log-processors/order-filled/update-order.ts:25-28 | a concrete canceled order that undoing a fill leaves open, everything else being restored |
| Disputes.DisputeTables.InsertPayout | src/blockchain/log-processors/database.ts:95-120 | a new payout is stored with the mark given; one already stored keeps its mark |
| Disputes.DisputeTables.ProcessInitialReportSubmittedLog | src/blockchain/log-processors/initial-report-submitted.ts:15-41 | the report counts as a stake; its payout is marked unless it was stored unmarked, and other marks stay |
| Disputes.DisputeTables.ProcessInitialReportSubmittedLogRemoval | src/blockchain/log-processors/initial-report-submitted.ts:43-52 | the report no longer counts, and its payout stays stored and marked |
| Disputes.DisputeTables.ProcessDisputeCrowdsourcerCreatedLog | src/blockchain/log-processors/crowdsourcer.ts:58-70 | a new crowdsourcer adds its size, and no stake, to what is current on its payout; other payouts, the stakes that count and every bond stay |
| Disputes.DisputeTables.ProcessDisputeCrowdsourcerContributionLog | src/blockchain/log-processors/crowdsourcer.ts:99-101 | the stake of exactly that crowdsourcer rises by the contribution and all else is equal; an unknown one is refused |
| Disputes.DisputeTables.UpdateIncompleteCrowdsourcers | src/blockchain/log-processors/crowdsourcer.ts:35-37 | every open crowdsourcer is closed as not filled and disavowed once more |
| Disputes.DisputeTables.UpdateTentativeWinningPayout | src/blockchain/log-processors/crowdsourcer.ts:17-33 | the payout with the most completed stake, the lowest-numbered on a tie, and no other, is marked as winning |
| Disputes.DisputeTables.ProcessDisputeCrowdsourcerCompletedLog | src/blockchain/log-processors/crowdsourcer.ts:124-136 | completes the crowdsourcer, closes the other open ones and picks the winner anew |
| DisputeRounds.UnionCountsAllStakes | src/server/getters/get-dispute-info.ts:68-84 | the UNION counts every stake exactly when no two rows agree in payout and amount |
| DisputeRounds.UnionDropsEqualStakes | src/blockchain/log-processors/crowdsourcer.ts:18-23 | concrete logs of two equal rounds on one payout, after which the queries count only one of them |
| DisputeRounds.GrowingSurvivesUnion | src/server/getters/get-dispute-info.ts:68-84 | strictly growing stakes all survive the UNION |
| DisputeRounds.MostStakedIsMost | src/blockchain/log-processors/crowdsourcer.ts:24-26 | the payout picked is one of those staked on, has the most stake, and is the lowest-numbered that has |
| DisputeRounds.PickIgnoresOrder | src/server/getters/database.ts:327-350 | which payout is picked depends on the sums by payout only, not on the order of the rows |
| DisputeRounds.NextBonds | src/server/getters/get-dispute-info.ts:111-113 | every payout but the winner holds at most a third, and its next bond is at least the total stake and more than any stake so far |
| DisputeRounds.WinnerIsPicked | src/blockchain/log-processors/crowdsourcer.ts:17-33 | between logs, picking anew gives the payout already marked |
| DisputeRounds.CompleteKeepsEscalated | src/blockchain/log-processors/crowdsourcer.ts:124-136 | a filled crowdsourcer's payout holds exactly two thirds and wins, and the total at least doubles |
| DisputeRounds.CompletionDisavowsOthers | src/blockchain/log-processors/crowdsourcer.ts:35-37 | a completed round disavows every other open crowdsourcer exactly once, and no other |
| DisputeRounds.RunDisavowsOnce | src/blockchain/log-processors/crowdsourcer.ts:35-37 | over every run no crowdsourcer is disavowed more than once, and none that is open or filled |
| DisputeRounds.NextKeepsEscalated | src/blockchain/log-processors/crowdsourcer.ts:51-136 | every log, and every expiring fee window, keeps the dispute invariant, and either leaves the stakes that count alone or adds one and doubles them |
| DisputeRounds.EveryRunEscalates | src/blockchain/log-processors/crowdsourcer.ts:17-136 | over every run from an initial report, with crowdsourcers closed by expiring fee windows in between, the invariant holds and the total doubles at least once a round |
| DisputeRounds.CurrentIsOpenOne | src/server/getters/get-dispute-info.ts:60-66 | the stake summed up as current on a payout is that of its one open crowdsourcer |
| DisputeRounds.ShownSizesAreBonds | src/server/getters/get-dispute-info.ts:140-197 | the sizes shown are the bonds needed now; with the bond a payout would hold two thirds; nothing remains exactly when a crowdsourcer for it is filled |
| DisputeRounds.ShownRoundBoundsStake | src/server/getters/get-dispute-info.ts:199-202 | the total stake is at least the initial report doubled for every round before the one shown |
| DisputeRounds.ShownRoundCountsRounds | src/server/getters/get-dispute-info.ts:199-202 | over every run the round shown is one more than the rounds completed in it |
| DisputeRounds.ShownStakes | src/server/getters/get-dispute-info.ts:140-197 | whatever the market's state, the winner shown is the payout of the newest stake, with two thirds of all stake from the first round on; the stakes shown are the completed and the open one; sizes appear only for the others in an active market |
| DisputeRounds.ReportMarksItsPayout | src/blockchain/log-processors/initial-report-submitted.ts:21-22 | an initial report leaves its payout the one tentative winner exactly when no other is marked and it is itself new or marked |
| DisputeRounds.ReportedAgainMarksTwo | src/blockchain/log-processors/initial-report-submitted.ts:43-52 | a report taken back and made again for another payout, after which both are marked |
| FeeWindows.FeeWindowTables.UpdateActiveFeeWindows | src/blockchain/log-processors/database.ts:50-84 | expired windows become past, then the windows around the time become current, and both sets are returned |
| FeeWindows.FeeWindowTables.AdvanceIncompleteCrowdsourcers | src/blockchain/process-block.ts:213-220 | no crowdsourcer of an expired window is left open; a row changes only if it was open in one, and only to not filled |
| FeeWindows.FeeWindowTables.AdvanceFeeWindowActive | src/blockchain/process-block.ts:185-191 | windows and crowdsourcers advance together, also when the early return is taken |
| FeeWindows.FeeWindowTables.ProcessBlock | src/blockchain/process-block.ts:104-113 | the clock is set and everything advances to it |
| FeeWindows.FeeWindowTables.ProcessFeeWindowCreatedLog | src/blockchain/log-processors/fee-window-created.ts:8-36 | the window is stored with the logged universe and times, current if the clock is strictly inside it, past if it ended before, future otherwise; no other window's universe or times change |
| FeeWindows.FeeWindowTables.ProcessDisputeCrowdsourcerCreatedLog | src/blockchain/log-processors/crowdsourcer.ts:51-70 | attaches the crowdsourcer to a current window of its universe, and fails exactly when there is none; what it does is an allowed step of a run |
| FeeWindows.FeeWindowTables.ProcessDisputeCrowdsourcerCompletedLog | src/blockchain/log-processors/crowdsourcer.ts:124-131 | the crowdsourcer is completed, no other of the market is left open, and a row changes only if it was open there, and only to not filled |
| FeeWindows.AdvanceKeepsConsistent | src/blockchain/log-processors/database.ts:50-84 | advancing to a later time leaves every window in the state the clock calls for and moves none back |
| FeeWindows.NextKeepsConsistent | src/blockchain/process-block.ts:185-220 | every log and block keeps the fee window invariant and moves windows only forward |
| FeeWindows.AdvanceKeepsWindows | src/blockchain/log-processors/database.ts:50-84 | advancing changes windows in their state and crowdsourcers in being closed, and nothing else |
| FeeWindows.RunStoresLogged | src/blockchain/log-processors/fee-window-created.ts:8-36 | over every run from empty tables the windows stored are exactly those logged, each with its logged universe and times, and the clock is the last block's |
| FeeWindows.OneCurrentPerUniverse | src/blockchain/log-processors/database.ts:56-60 | a universe has at most one current window, and a window the clock stands strictly inside is current |
| FeeWindows.EveryRunMovesForward | src/blockchain/process-block.ts:185-220 | over every run windows only move forward, one is current at most, and no open crowdsourcer hangs on a past window |
| Buckets.BucketRangeByInterval | src/server/getters/get-profit-loss.ts:140-155 | refuses exactly the bad arguments; else ends ascend from the start time by the interval, the last is the end time, and their number is the span over the interval, rounded up, plus one |
| Buckets.DefaultBucketCount | src/server/getters/get-profit-loss.ts:146-146 | by default there are at most thirty-one buckets |
| Buckets.IntervalInFigures | src/server/getters/get-profit-loss.ts:146-146 | a given interval is used as it is; without one it is the least that covers the span in thirty steps |
| Buckets.DefaultBuckets | src/server/getters/get-profit-loss.ts:146-146 | how many steps the default gives: thirty of a thirtieth where that is whole, and otherwise as many as the rounded interval needs |
| Buckets.PickAt | src/server/getters/get-profit-loss.ts:232-243 | picks the last leading row at or before the bucket and stamps it, or makes a stamped default row |
| Buckets.RowsAt | src/server/getters/get-profit-loss.ts:232-244 | one row for every series, each series stamped for itself only |
| Buckets.BucketAtTimestamps | src/server/getters/get-profit-loss.ts:230-246 | every bucket shows what the timestamps left by the buckets before it call for, and the timestamps left at the end |
| Buckets.CountIsOriginal | src/server/getters/get-profit-loss.ts:234-241 | although timestamps are overwritten, each bucket counts rows by their original ones |
| Buckets.BucketsShowLastRows | src/server/getters/get-profit-loss.ts:230-246 | every bucket shows, for every series, the last row whose original timestamp is at or before it, or the default row if there is none |
| Buckets.ShownOutcomeIsSeriesOutcome | src/server/getters/get-profit-loss.ts:234-240 | the row shown for a series has the series' outcome exactly when the series has a row at or before the bucket or the default row has that outcome |
| Buckets.LaterOutcomeShowsDefault | src/server/getters/get-profit-loss.ts:17-40 | an outcome not traded before the bucket is shown by a row of outcome zero |
| Buckets.StampIsKept | src/server/getters/get-profit-loss.ts:240-241 | a picked row keeps its bucket's timestamp exactly when the bucket is the last or a further row falls at or before the next one |
| Buckets.OneRowTwoBuckets | src/server/getters/get-profit-loss.ts:230-246 | one row before two buckets is returned for both, and carries the second timestamp at the first |
| Categories.CategoryTables.UpdateMarketState | src/blockchain/log-processors/database.ts:39-48 | the market's latest state is the new one |
| Categories.CategoryTables.RollbackMarketState | src/blockchain/log-processors/database.ts:86-93 | drops the latest state, and fails exactly when it is not the expected one |
| Categories.CategoryTables.ProcessMarketCreatedLog | src/blockchain/log-processors/market-created.ts:60-188 | the market is stored with its category and ticks and without open interest, in its first state, its category exists, and a market stored already is refused |
| Categories.CategoryTables.UpdateCategoryAggregationsOnMarketOpenInterestChanged | src/blockchain/log-processors/category-aggregations.ts:17-39 | the category moves by the difference, its non-finalized part only for a market that is not finalized |
| Categories.CategoryTables.UpdateMarketOpenInterest | src/blockchain/log-processors/order-filled/update-volumetrics.ts:66-99 | the market's open interest times 10^18 is its supply times its ticks, no other market changes, and the category follows |
| Categories.CategoryTables.MarketFinalizedHelper | src/blockchain/log-processors/category-aggregations.ts:59-86 | looks up the category and both amounts, and fails exactly when market or category is missing |
| Categories.CategoryTables.ProcessMarketFinalizedLog | src/blockchain/log-processors/market-finalized.ts:14-23 | the state is set first, then the market's open interest leaves the non-finalized part |
| Categories.CategoryTables.ProcessMarketFinalizedLogRemoval | src/blockchain/log-processors/market-finalized.ts:25-34 | the state is taken back first, then the open interest returns; fails exactly when the latest state is not finalized |
| CategoryLaws.SumsMove | src/blockchain/log-processors/category-aggregations.ts:17-57 | when one market changes, a category's two sums stay right exactly when it moves by that market's change |
| CategoryLaws.CreationKeepsSums | src/blockchain/log-processors/market-created.ts:183-188 | creating a market, with or without a new category, keeps the sums |
| CategoryLaws.OpenInterestKeepsSums | src/blockchain/log-processors/category-aggregations.ts:17-39 | an open-interest change keeps the sums, for finalized markets too |
| CategoryLaws.OpenInterestIsSet | src/blockchain/log-processors/category-aggregations.ts:17-39 | the open interest set is the market's from then on, whatever was set before |
| CategoryLaws.FinalizationKeepsSums | src/blockchain/log-processors/market-finalized.ts:14-23 | finalizing keeps the sums exactly when the market was not finalized before or has no open interest |
| CategoryLaws.UnfinalizationKeepsSums | src/blockchain/log-processors/market-finalized.ts:25-34 | taking it back keeps them exactly when the state below is not finalized too or there is no open interest |
| CategoryLaws.StateChangeKeepsSums | src/blockchain/process-block.ts:164-183 | any other new state keeps them exactly when it does not replace a finalized one or there is no open interest |
| CategoryLaws.StateRollbackKeepsSums | src/blockchain/log-processors/database.ts:86-93 | likewise for taking another state back |
| CategoryLaws.UnfinalizedIsUndone | src/blockchain/log-processors/market-finalized.ts:14-34 | removing a finalization restores every table, whatever they held |
| CategoryLaws.FinalizedTwice | src/blockchain/log-processors/category-aggregations.ts:41-48 | after a second finalization the sums are right only without open interest |
| CategoryLaws.FinalizedTwiceBreaksSums | src/blockchain/log-processors/category-aggregations.ts:41-48 | a concrete market for which they are wrong |
| CategoryLaws.StateOverFinalizedBreaksSums | src/blockchain/process-block.ts:164-183 | the same market, finalized once and then put to awaiting finalization, for which they are wrong too |
| CategoryLaws.EveryRunKeepsSums | src/blockchain/log-processors/category-aggregations.ts:17-57 | over every run that puts no state over a finalized one, open interest is the sum over a category's markets and its non-finalized part the sum over those not finalized |
| CategoryLaws.EveryRunFromEmptyKeepsSums | src/blockchain/log-processors/category-aggregations.ts:17-57 | the same from empty tables |

## Left out

- Knex and SQL text, migrations, seeds, search, HTTP and WebSocket servers, RPC dispatch and loggers: input and output.
- Contract lookups (fee window lookup, mailbox balances, order finder, supplies) and unit conversions of log amounts: their results are parameters.
- BigNumber's decimal-place limit, other than as the bounded error of the average-price division; and dimension checks on quantities.
- Concurrency between asynchronous database calls; each processor is one step.
- PositionHistory.MarkToMarket: takes the latest row of the timeseries to be the last appended one; rows of one transaction with equal block and log index, as a self-fill writes, are not told apart.
- AccountLaws.FillsAreZeroSum: supposes that an order's creator does not fill it.
- FillLaws.UndoFills: does not cover outcome price, last trade block, shares outstanding and the formatted order amount, which the removal sets or recomputes, and supposes one fill per order and block; several are covered by the exact conditions in `RebuildVolume`.
- FillHistories.FillsFreezeUnrealizedCost: supposes trades between two accounts, paid in full in shares or tokens, as the contracts settle them.
- FillHistories.VolumeIsAtMostCost: supposes the same.
- VolumeRuns.RunKeepsAgreement: supposes one stored fill per order and block at a time; otherwise the exact conditions in `RebuildVolume` apply.
- The settlement price chosen on a claim of winnings; a claim is a closing update at any price.
- Profit percentages, sums of profit results over outcomes, fees and trade costs including fees: single formulas.
- Invalid-market share prices and returns, continuous compounding, gas price and dates.
- DisputeRounds.EveryRunEscalates: supposes that a crowdsourcer's size is its payout's bond when it is created and that it completes when its stake equals its size, as the contracts arrange.
- OrderFilled.Database.UpdateVolumetrics: leaves out shares outstanding, the last trade block and the open-interest update that follows, which `Categories` models by itself, and so their failures.
- OrderFilled.Database.UpdateOrder: leaves out the outcome's price and the formatted amount.
- OrderFilled.Database.ProcessOrderFilledLog: leaves out outcome values, open interest and the pending liquidity row.
- OrderFilled.Database.ProcessOrderFilledLogRemoval: leaves out outcome values, open interest and the liquidity refresh.
- Disputes.DisputeTables.ProcessInitialReportSubmittedLog: leaves out the market's state, fee window and report size, the universe lookup, and a second report while the first still stands.
- Disputes.DisputeTables.ProcessInitialReportSubmittedLogRemoval: leaves out the same, and the refusal when the market's state is not the expected one.
- Disputes.DisputeTables.ProcessDisputeCrowdsourcerCompletedLog: leaves out the market's state, its dispute round column and its fee window.
- FeeWindows.FeeWindowTables.AdvanceFeeWindowActive: leaves out the market states that advance with the windows; what they do to categories is in `CategoryLaws.StateChangeKeepsSums`.
- FeeWindows.FeeWindowTables.ProcessBlock: leaves out the timestamp override, the block row and the two market advances before the windows.
- FeeWindows.FeeWindowTables.ProcessFeeWindowCreatedLog: leaves out the token rows inserted with the window.
- Categories.CategoryTables.ProcessMarketCreatedLog: leaves out the market's other columns and its outcome, token, supply and transfer rows.
- Categories.CategoryTables.ProcessMarketFinalizedLog: leaves out the finalization block, migration flags, mailbox balance and outcome values.
- Categories.CategoryTables.ProcessMarketFinalizedLogRemoval: leaves out the same.
- Rollbacks of crowdsourcer logs, stakes of single accounts, payout normalization, and the market state and fee window of a completed round.
- FeeWindows.EveryRunMovesForward: supposes time that does not go back and windows of one universe that do not overlap; timestamp overrides and removal of fee windows are not modelled.
- CategoryLaws.EveryRunKeepsSums: supposes one universe; a category name shared by several is updated in all of them by the source.
- Market creation's other columns, removal of created markets, forks, migration and disavowal.
- Buckets.BucketAtTimestamps: rows of different series are different objects; profit figures computed from the rows are left out.
- Token mint, burn and transfer ledgers, block and log queues, warp sync and plain getters: they would only add easy members.
