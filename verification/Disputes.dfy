/** Dispute rounds of one market: crowdsourcers, the tentative winning payout and the bond each payout needs next. */
module Disputes {
  import opened Results

  type PayoutId = nat

  /** Stake on a payout, as the stake queries select it. */
  datatype StakeRow = StakeRow(payoutId: PayoutId, amountStaked: int)

  /** `size` is the bond it set out to gather; `completed` is null while it may still fill, then true or false. */
  datatype Crowdsourcer = Crowdsourcer(crowdsourcerId: string, stake: StakeRow, size: int, completed: Option<bool>,
      disavowed: int)

  /** One market's rows: its initial report, its crowdsourcers in insertion order, its stored payouts and those of them
      marked as tentatively winning. */
  datatype Dispute = Dispute(initialReport: Option<StakeRow>, crowdsourcers: seq<Crowdsourcer>,
      payouts: set<PayoutId>, tentativeWinning: set<PayoutId>)

  const NO_DISPUTE: Dispute := Dispute(None, [], {}, {})

  // ---------------------------------------------------------------- stake queries

  function CompletedStakes(rows: seq<Crowdsourcer>): seq<StakeRow> {
    if rows == [] then []
    else
      var before, last := CompletedStakes(rows[..|rows| - 1]), rows[|rows| - 1];
      if last.completed == Some(true) then before + [last.stake] else before
  }

  /** What a UNION keeps of its rows: each distinct row once. */
  function Deduplicated(rows: seq<StakeRow>): seq<StakeRow> {
    if rows == [] then []
    else
      var before, last := Deduplicated(rows[..|rows| - 1]), rows[|rows| - 1];
      if last in rows[..|rows| - 1] then before else before + [last]
  }

  function AllStakes(d: Dispute): seq<StakeRow> {
    (if d.initialReport.Some? then [d.initialReport.value] else []) + CompletedStakes(d.crowdsourcers)
  }

  /** The rows of the stake queries: completed crowdsourcers united with the initial report. */
  function StakeRows(d: Dispute): seq<StakeRow> {
    Deduplicated(AllStakes(d))
  }

  /** Sum of the rows' stakes on one payout. */
  function Staked(rows: seq<StakeRow>, payoutId: PayoutId): int {
    if rows == [] then 0
    else Staked(rows[..|rows| - 1], payoutId)
         + if rows[|rows| - 1].payoutId == payoutId then rows[|rows| - 1].amountStaked else 0
  }

  function TotalStaked(rows: seq<StakeRow>): int {
    if rows == [] then 0 else TotalStaked(rows[..|rows| - 1]) + rows[|rows| - 1].amountStaked
  }

  /** The payout with the largest sum, the lowest of them on a tie: the head of the sums by payout, sorted
      descending. */
  function MostStakedAmong(candidates: seq<StakeRow>, rows: seq<StakeRow>): Option<PayoutId> {
    if candidates == [] then None
    else
      var last := candidates[|candidates| - 1].payoutId;
      match MostStakedAmong(candidates[..|candidates| - 1], rows)
      case None => Some(last)
      case Some(best) =>
        if Staked(rows, best) < Staked(rows, last) || (Staked(rows, best) == Staked(rows, last) && last < best)
        then Some(last) else Some(best)
  }

  function MostStaked(rows: seq<StakeRow>): Option<PayoutId> {
    MostStakedAmong(rows, rows)
  }

  /** Stake a payout must gather to become the tentative winner. */
  function CalculateBondSize(totalCompletedStakeOnAllPayouts: int, completedStakeAmount: int): int {
    totalCompletedStakeOnAllPayouts * 2 - completedStakeAmount * 3
  }

  function BondSize(d: Dispute, payoutId: PayoutId): int {
    CalculateBondSize(TotalStaked(StakeRows(d)), Staked(StakeRows(d), payoutId))
  }

  // ---------------------------------------------------------------- what is shown

  function OpenOn(rows: seq<Crowdsourcer>, payoutId: PayoutId): seq<Crowdsourcer> {
    if rows == [] then []
    else
      var before, last := OpenOn(rows[..|rows| - 1], payoutId), rows[|rows| - 1];
      if last.completed == None && last.stake.payoutId == payoutId then before + [last] else before
  }

  /** Stake and bond of the open crowdsourcers of one payout, summed. */
  datatype CurrentStake = CurrentStake(amountStaked: int, size: int)

  function SumCurrent(rows: seq<Crowdsourcer>): CurrentStake {
    if rows == [] then CurrentStake(0, 0)
    else
      var before, last := SumCurrent(rows[..|rows| - 1]), rows[|rows| - 1];
      CurrentStake(before.amountStaked + last.stake.amountStaked, before.size + last.size)
  }

  function CurrentStakeOn(d: Dispute, payoutId: PayoutId): Option<CurrentStake> {
    var open := OpenOn(d.crowdsourcers, payoutId);
    if open == [] then None else Some(SumCurrent(open))
  }

  datatype StakeSizes = StakeSizes(bondSizeCurrent: int, stakeRemaining: int, bondSizeTotal: int)

  /** A payout's stakes as they are shown; sizes only while it can be disputed. */
  datatype StakeDetails = StakeDetails(stakeCurrent: int, stakeCompleted: int, tentativeWinning: bool,
      sizes: Option<StakeSizes>)

  function StakeDetailsOf(d: Dispute, payoutId: PayoutId, isActiveMarketState: bool): StakeDetails {
    var stakeCompleted := Staked(StakeRows(d), payoutId);
    var current := CurrentStakeOn(d, payoutId);
    var stakeCurrent := if current.None? then 0 else current.value.amountStaked;
    var bondSizeCurrent :=
      if current.None? then CalculateBondSize(TotalStaked(StakeRows(d)), stakeCompleted) else current.value.size;
    var tentativeWinning := payoutId in d.tentativeWinning;
    StakeDetails(stakeCurrent, stakeCompleted, tentativeWinning,
      if tentativeWinning || !isActiveMarketState then None
      else Some(StakeSizes(bondSizeCurrent, bondSizeCurrent - stakeCurrent, bondSizeCurrent + stakeCompleted)))
  }

  function BondSizeOfNewStake(d: Dispute): int {
    TotalStaked(StakeRows(d)) * 2
  }

  function CountCompleted(rows: seq<Crowdsourcer>): nat {
    if rows == [] then 0
    else CountCompleted(rows[..|rows| - 1]) + if rows[|rows| - 1].completed == Some(true) then 1 else 0
  }

  /** The number of the round under way; none before there is any stake. */
  function DisputeRound(d: Dispute): Option<nat> {
    if TotalStaked(StakeRows(d)) == 0 then None else Some(CountCompleted(d.crowdsourcers) + 1)
  }

  // ---------------------------------------------------------------- logs

  function WinningOf(rows: seq<StakeRow>): set<PayoutId> {
    match MostStaked(rows)
    case None => {}
    case Some(p) => {p}
  }

  /** A payout already stored keeps its mark; a new one is stored with the mark given. */
  function PayoutInserted(d: Dispute, payoutId: PayoutId, tentativeWinning: bool): Dispute {
    if payoutId in d.payouts then d
    else d.(payouts := d.payouts + {payoutId},
            tentativeWinning := if tentativeWinning then d.tentativeWinning + {payoutId} else d.tentativeWinning)
  }

  function InitialReported(d: Dispute, report: StakeRow): Dispute {
    PayoutInserted(d, report.payoutId, true).(initialReport := Some(report))
  }

  /** The report goes; its payout stays stored and marked. */
  function InitialReportRemoved(d: Dispute): Dispute {
    d.(initialReport := None)
  }

  function Created(d: Dispute, id: string, payoutId: PayoutId, size: int): Dispute {
    PayoutInserted(d, payoutId, false).(
      crowdsourcers := d.crowdsourcers + [Crowdsourcer(id, StakeRow(payoutId, 0), size, None, 0)])
  }

  /** The crowdsourcers `ids`, attached to a window that has expired, are closed if still open. */
  function Expired(d: Dispute, ids: set<string>): Dispute {
    d.(crowdsourcers := seq(|d.crowdsourcers|, i requires 0 <= i < |d.crowdsourcers| =>
      ExpiredRow(d.crowdsourcers[i], ids)))
  }

  function ExpiredRow(c: Crowdsourcer, ids: set<string>): Crowdsourcer {
    if c.completed == None && c.crowdsourcerId in ids then c.(completed := Some(false)) else c
  }

  function ContributedRow(c: Crowdsourcer, id: string, amount: int): Crowdsourcer {
    if c.crowdsourcerId == id then c.(stake := c.stake.(amountStaked := c.stake.amountStaked + amount)) else c
  }

  function Contributed(d: Dispute, id: string, amount: int): Dispute {
    d.(crowdsourcers := seq(|d.crowdsourcers|, i requires 0 <= i < |d.crowdsourcers| =>
      ContributedRow(d.crowdsourcers[i], id, amount)))
  }

  /** An open row more changes what is current on its payout, and no stake that counts. */
  lemma NewRowIsOpen(d: Dispute, row: Crowdsourcer)
    requires row.completed == None
    ensures var after, p := d.(crowdsourcers := d.crowdsourcers + [row]), row.stake.payoutId;
      && StakeRows(after) == StakeRows(d)
      && (forall q :: q != p ==> CurrentStakeOn(after, q) == CurrentStakeOn(d, q))
      && CurrentStakeOn(after, p) ==
         var was := if CurrentStakeOn(d, p).None? then CurrentStake(0, 0) else CurrentStakeOn(d, p).value;
         Some(CurrentStake(was.amountStaked + row.stake.amountStaked, was.size + row.size))
  {
    var rows := d.crowdsourcers + [row];
    assert rows[..|rows| - 1] == d.crowdsourcers;
    var open := OpenOn(d.crowdsourcers, row.stake.payoutId);
    assert (open + [row])[..|open|] == open;
  }

  /** A crowdsourcer still open is closed without having filled. */
  function ClosedRow(c: Crowdsourcer): Crowdsourcer {
    if c.completed == None then c.(completed := Some(false), disavowed := c.disavowed + 1) else c
  }

  function CompletedRow(c: Crowdsourcer, id: string): Crowdsourcer {
    if c.crowdsourcerId == id then c.(completed := Some(true)) else ClosedRow(c)
  }

  function CompletedRows(rows: seq<Crowdsourcer>, id: string): seq<Crowdsourcer> {
    seq(|rows|, i requires 0 <= i < |rows| => CompletedRow(rows[i], id))
  }

  /** The crowdsourcer is completed, the others still open are closed, and the winner is picked anew. */
  function Completed(d: Dispute, id: string): Dispute {
    var closed := d.(crowdsourcers := CompletedRows(d.crowdsourcers, id));
    closed.(tentativeWinning := WinningOf(StakeRows(closed)))
  }

  /** The tables of one market. */
  class DisputeTables {
    var initialReport: Option<StakeRow>
    var crowdsourcers: seq<Crowdsourcer>
    var payouts: set<PayoutId>
    var tentativeWinning: set<PayoutId>

    function Rows(): Dispute
      reads this
    {
      Dispute(initialReport, crowdsourcers, payouts, tentativeWinning)
    }

    constructor ()
      ensures Rows() == NO_DISPUTE
    {
      initialReport, crowdsourcers, payouts, tentativeWinning := None, [], {}, {};
    }

    /** Stores a payout, marked as given, unless it is stored already; then its mark stays. */
    method InsertPayout(payoutId: PayoutId, marked: bool)
      modifies this`payouts, this`tentativeWinning
      ensures Rows() == PayoutInserted(old(Rows()), payoutId, marked)
      ensures payouts == old(payouts) + {payoutId}
      ensures forall p :: p in tentativeWinning <==>
        p in old(tentativeWinning) || (p == payoutId && marked && payoutId !in old(payouts))
    {
      if payoutId in payouts { return; }
      payouts := payouts + {payoutId};
      if marked { tentativeWinning := tentativeWinning + {payoutId}; }
    }

    /** The report counts as a stake; its payout is marked as winning unless it was stored unmarked. */
    method ProcessInitialReportSubmittedLog(report: StakeRow)
      modifies this
      ensures AllStakes(Rows()) == [report] + CompletedStakes(old(crowdsourcers))
      ensures forall p :: p in tentativeWinning <==>
        p in old(tentativeWinning) || (p == report.payoutId && report.payoutId !in old(payouts))
      ensures Rows() == InitialReported(old(Rows()), report)
    {
      InsertPayout(report.payoutId, true);
      initialReport := Some(report);
    }

    /** The report no longer counts; its payout stays stored, and marked if it was. */
    method ProcessInitialReportSubmittedLogRemoval()
      modifies this`initialReport
      ensures AllStakes(Rows()) == CompletedStakes(crowdsourcers)
      ensures Rows() == InitialReportRemoved(old(Rows()))
    {
      initialReport := None;
    }

    /** A new crowdsourcer joins the open ones of its payout; no stake that counts and no bond changes. */
    method ProcessDisputeCrowdsourcerCreatedLog(id: string, payoutId: PayoutId, size: int)
      modifies this
      ensures Rows() == Created(old(Rows()), id, payoutId, size)
      ensures StakeRows(Rows()) == old(StakeRows(Rows())) && forall p :: BondSize(Rows(), p) == old(BondSize(Rows(), p))
      ensures forall p :: p != payoutId ==> CurrentStakeOn(Rows(), p) == old(CurrentStakeOn(Rows(), p))
      ensures CurrentStakeOn(Rows(), payoutId) ==
        var was := old(CurrentStakeOn(Rows(), payoutId));
        Some(if was.None? then CurrentStake(0, size) else CurrentStake(was.value.amountStaked, was.value.size + size))
    {
      var row := Crowdsourcer(id, StakeRow(payoutId, 0), size, None, 0);
      NewRowIsOpen(Rows(), row);
      InsertPayout(payoutId, false);
      crowdsourcers := crowdsourcers + [row];
    }

    /** The stake of the crowdsourcer rises by the amount, and nothing else changes; an unknown one is refused. */
    method ProcessDisputeCrowdsourcerContributionLog(id: string, amount: int) returns (outcome: Result<()>)
      modifies this
      ensures outcome.Ok? <==> exists i :: 0 <= i < |old(crowdsourcers)| && old(crowdsourcers)[i].crowdsourcerId == id
      ensures initialReport == old(initialReport)
      ensures payouts == old(payouts) && tentativeWinning == old(tentativeWinning)
      ensures |crowdsourcers| == |old(crowdsourcers)|
      ensures forall i :: 0 <= i < |crowdsourcers| ==>
        var was, now := old(crowdsourcers)[i], crowdsourcers[i];
        && now.(stake := was.stake) == was && now.stake.payoutId == was.stake.payoutId
        && now.stake.amountStaked == was.stake.amountStaked + if was.crowdsourcerId == id then amount else 0
      ensures Rows() == Contributed(old(Rows()), id, amount)
    {
      outcome := Err("crowdsourcer not found");
      var i, rows := 0, crowdsourcers;
      while i < |rows|
        modifies {}
        invariant 0 <= i <= |rows| == |crowdsourcers|
        invariant outcome.Ok? <==> exists j :: 0 <= j < i && crowdsourcers[j].crowdsourcerId == id
        invariant forall j :: 0 <= j < i ==> rows[j] == ContributedRow(crowdsourcers[j], id, amount)
        invariant forall j :: i <= j < |rows| ==> rows[j] == crowdsourcers[j]
      {
        if rows[i].crowdsourcerId == id {
          rows := rows[i := rows[i].(stake := rows[i].stake.(amountStaked := rows[i].stake.amountStaked + amount))];
          outcome := Ok(());
        }
        i := i + 1;
      }
      crowdsourcers := rows;
    }

    method UpdateIncompleteCrowdsourcers()
      modifies this`crowdsourcers
      ensures |crowdsourcers| == |old(crowdsourcers)|
      ensures forall i :: 0 <= i < |crowdsourcers| ==> crowdsourcers[i] == ClosedRow(old(crowdsourcers)[i])
    {
      crowdsourcers :=
          seq(|crowdsourcers|, i requires 0 <= i < |crowdsourcers| reads this => ClosedRow(crowdsourcers[i]));
    }

    /** Exactly the payout with the most stake, if there is any stake, is marked. */
    method UpdateTentativeWinningPayout()
      modifies this`tentativeWinning
      ensures tentativeWinning == WinningOf(StakeRows(old(Rows())))
    {
      var mostStakedPayoutId := MostStaked(StakeRows(Rows()));
      tentativeWinning := if mostStakedPayoutId.None? then {} else {mostStakedPayoutId.value};
    }

    method ProcessDisputeCrowdsourcerCompletedLog(id: string)
      modifies this
      ensures Rows() == Completed(old(Rows()), id)
    {
      ghost var before := crowdsourcers;
      crowdsourcers := seq(|crowdsourcers|, i requires 0 <= i < |crowdsourcers| reads this =>
        if crowdsourcers[i].crowdsourcerId == id then crowdsourcers[i].(completed := Some(true)) else crowdsourcers[i]);
      UpdateIncompleteCrowdsourcers();
      assert crowdsourcers == CompletedRows(before, id);
      UpdateTentativeWinningPayout();
    }
  }
}
