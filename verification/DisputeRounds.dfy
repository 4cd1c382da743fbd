/** What every run of dispute rounds keeps, when each completed crowdsourcer holds exactly its bond. */
module DisputeRounds {
  import opened Results
  import opened Disputes

  // ---------------------------------------------------------------- stake sums

  lemma StakedAppend(rows: seq<StakeRow>, row: StakeRow, p: PayoutId)
    ensures Staked(rows + [row], p) == Staked(rows, p) + if row.payoutId == p then row.amountStaked else 0
    ensures TotalStaked(rows + [row]) == TotalStaked(rows) + row.amountStaked
  {
    assert (rows + [row])[..|rows|] == rows;
  }

  predicate AllPositive(rows: seq<StakeRow>) {
    forall i :: 0 <= i < |rows| ==> 0 < rows[i].amountStaked
  }

  /** No two payouts hold more than the total between them. */
  lemma {:induction false} TwoPayouts(rows: seq<StakeRow>, p: PayoutId, q: PayoutId)
    requires AllPositive(rows)
    ensures 0 <= Staked(rows, p) <= TotalStaked(rows)
    ensures p != q ==> Staked(rows, p) + Staked(rows, q) <= TotalStaked(rows)
  {
    if rows != [] {
      TwoPayouts(rows[..|rows| - 1], p, q);
    }
  }

  predicate StrictlyGrowing(rows: seq<StakeRow>) {
    forall i, j :: 0 <= i < j < |rows| ==> rows[i].amountStaked < rows[j].amountStaked
  }

  /** Rows of strictly growing amounts are all distinct, so a UNION keeps every one of them. */
  lemma {:induction false} GrowingSurvivesUnion(rows: seq<StakeRow>)
    requires StrictlyGrowing(rows)
    ensures Deduplicated(rows) == rows
  {
    if rows != [] {
      var before, last := rows[..|rows| - 1], rows[|rows| - 1];
      GrowingSurvivesUnion(before);
      assert forall i :: 0 <= i < |before| ==> before[i] == rows[i] && rows[i].amountStaked < last.amountStaked;
      assert rows == before + [last];
    }
  }

  predicate DistinctRows(rows: seq<StakeRow>) {
    forall i, j :: 0 <= i < j < |rows| ==> rows[i] != rows[j]
  }

  /** The UNION counts every stake exactly when no two rows have the same payout and amount; otherwise it counts
      less. */
  lemma {:induction false} UnionCountsAllStakes(rows: seq<StakeRow>)
    requires AllPositive(rows)
    ensures TotalStaked(Deduplicated(rows)) <= TotalStaked(rows)
    ensures TotalStaked(Deduplicated(rows)) == TotalStaked(rows) <==> DistinctRows(rows)
  {
    if rows != [] {
      var before, last := rows[..|rows| - 1], rows[|rows| - 1];
      UnionCountsAllStakes(before);
      assert rows == before + [last];
      DeduplicatedAppend(before, last);
      StakedAppend(before, last, 0);
      StakedAppend(Deduplicated(before), last, 0);
      DistinctAppend(before, last);
    }
  }

  lemma DistinctAppend(rows: seq<StakeRow>, row: StakeRow)
    ensures DistinctRows(rows + [row]) <==> DistinctRows(rows) && row !in rows
  {
    var all := rows + [row];
    assert all[|rows|] == row;
    assert forall i :: 0 <= i < |rows| ==> all[i] == rows[i];
  }

  lemma DeduplicatedAppend(rows: seq<StakeRow>, row: StakeRow)
    ensures Deduplicated(rows + [row]) == if row in rows then Deduplicated(rows) else Deduplicated(rows) + [row]
  {
    assert (rows + [row])[..|rows|] == rows;
  }

  lemma NothingStaked(p: PayoutId)
    ensures Staked([], p) == 0 == TotalStaked([]) && Deduplicated([]) == []
  {
  }

  lemma CompletedPair(x: Crowdsourcer, y: Crowdsourcer)
    requires x.completed == Some(true) == y.completed
    ensures CompletedStakes([x, y]) == [x.stake] + [y.stake]
  {
    hide CompletedStakes;
    assert [x, y] == [x] + [y];
    CompletedAppend([x], [y]);
    OneCompleted(x);
    OneCompleted(y);
  }

  // ---------------------------------------------------------------- picking the winner

  /** `best` has more stake than `p`, or as much and the lower number. */
  predicate Beats(rows: seq<StakeRow>, best: PayoutId, p: PayoutId) {
    Staked(rows, p) < Staked(rows, best) || (Staked(rows, p) == Staked(rows, best) && best <= p)
  }

  predicate IsStakedOn(rows: seq<StakeRow>, p: PayoutId) {
    exists i :: 0 <= i < |rows| && rows[i].payoutId == p
  }

  /** The payout picked is one of the candidates' payouts and beats every other. */
  lemma {:induction false} MostStakedIsMost(candidates: seq<StakeRow>, rows: seq<StakeRow>)
    ensures MostStakedAmong(candidates, rows).None? <==> candidates == []
    ensures candidates != [] ==>
      var best := MostStakedAmong(candidates, rows).value;
      IsStakedOn(candidates, best) && forall p :: IsStakedOn(candidates, p) ==> Beats(rows, best, p)
  {
    if candidates != [] {
      var before, last := candidates[..|candidates| - 1], candidates[|candidates| - 1];
      MostStakedIsMost(before, rows);
      assert candidates == before + [last];
      StakedOnAppend(before, last);
    }
  }

  lemma StakedOnAppend(rows: seq<StakeRow>, row: StakeRow)
    ensures forall p :: IsStakedOn(rows + [row], p) <==> IsStakedOn(rows, p) || row.payoutId == p
  {
    var all := rows + [row];
    assert all[|rows|] == row;
    assert forall i :: 0 <= i < |rows| ==> all[i] == rows[i];
  }

  /** Which payout is picked depends on the sums by payout only, not on the order of the stakes. */
  lemma PickIgnoresOrder(a: seq<StakeRow>, b: seq<StakeRow>)
    requires forall p :: Staked(a, p) == Staked(b, p) && (IsStakedOn(a, p) <==> IsStakedOn(b, p))
    ensures MostStaked(a) == MostStaked(b)
  {
    hide Staked;
    MostStakedIsMost(a, a);
    MostStakedIsMost(b, b);
    assert a != [] ==> IsStakedOn(a, a[0].payoutId);
    assert b != [] ==> IsStakedOn(b, b[0].payoutId);
  }

  /** A payout with strictly more stake than every other is the one picked. */
  lemma UniqueMostStaked(rows: seq<StakeRow>, winner: PayoutId)
    requires IsStakedOn(rows, winner)
    requires forall p :: p != winner ==> Staked(rows, p) < Staked(rows, winner)
    ensures WinningOf(rows) == {winner}
  {
    MostStakedIsMost(rows, rows);
  }

  // ---------------------------------------------------------------- escalation

  /** Every stake that counts, oldest first: the initial report, then the completed crowdsourcers. */
  function Rounds(d: Dispute): seq<StakeRow> {
    AllStakes(d)
  }

  /** What holds between logs: stakes strictly grow from round to round, the newest one's payout is the one tentative
      winner, and after at least one completed round it holds exactly two thirds of all stake. Open crowdsourcers come
      after every completed one, one at most for each payout, and set out to gather exactly its bond. */
  ghost predicate Escalated(d: Dispute) {
    var rows := Rounds(d);
    && d.initialReport.Some?
    && AllPositive(rows) && StrictlyGrowing(rows)
    && d.tentativeWinning == {rows[|rows| - 1].payoutId}
    && (if |rows| == 1 then Staked(rows, rows[0].payoutId) == TotalStaked(rows)
        else 3 * Staked(rows, rows[|rows| - 1].payoutId) == 2 * TotalStaked(rows))
    && (forall i, j :: 0 <= i < j < |d.crowdsourcers| && d.crowdsourcers[j].completed == Some(true) ==>
          d.crowdsourcers[i].completed != None)
    && (forall i, j :: 0 <= i < j < |d.crowdsourcers| ==>
          d.crowdsourcers[i].crowdsourcerId != d.crowdsourcers[j].crowdsourcerId)
    && OpenForBonds(d)
  }

  /** Every open crowdsourcer disputes the tentative winner, alone on its payout, for that payout's bond. */
  ghost predicate OpenForBonds(d: Dispute) {
    && (forall i :: IsOpen(d, i) ==>
          d.crowdsourcers[i].stake.payoutId !in d.tentativeWinning
          && d.crowdsourcers[i].size == BondSize(d, d.crowdsourcers[i].stake.payoutId))
    && (forall i, j :: IsOpen(d, i) && IsOpen(d, j) && i != j ==>
          d.crowdsourcers[i].stake.payoutId != d.crowdsourcers[j].stake.payoutId)
  }

  predicate IsOpen(d: Dispute, i: int) {
    0 <= i < |d.crowdsourcers| && d.crowdsourcers[i].completed == None
  }

  /** The newest stake, that of the tentative winner. */
  function Newest(d: Dispute): StakeRow
    requires d.initialReport.Some?
  {
    Rounds(d)[|Rounds(d)| - 1]
  }

  lemma NewestIsPart(rows: seq<StakeRow>)
    requires AllPositive(rows) && 1 <= |rows|
    ensures rows[|rows| - 1].amountStaked <= TotalStaked(rows)
    ensures 2 <= |rows| ==> rows[|rows| - 1].amountStaked < TotalStaked(rows)
  {
    var before := rows[..|rows| - 1];
    TwoPayouts(before, 0, 0);
    if 2 <= |rows| {
      TwoPayouts(before[..|before| - 1], 0, 0);
    }
  }

  /** Between logs: the UNION drops nothing; the tentative winner holds more than any other payout, which holds at most
      a third; and every other payout's next bond is at least the total stake and more than every stake so far. */
  lemma NextBonds(d: Dispute, p: PayoutId)
    requires Escalated(d) && p !in d.tentativeWinning
    ensures StakeRows(d) == AllStakes(d)
    ensures 3 * Staked(StakeRows(d), p) <= TotalStaked(StakeRows(d))
    ensures Staked(StakeRows(d), p) < Staked(StakeRows(d), Newest(d).payoutId)
    ensures TotalStaked(StakeRows(d)) <= BondSize(d, p)
    ensures Newest(d).amountStaked < BondSize(d, p)
  {
    var rows := Rounds(d);
    GrowingSurvivesUnion(rows);
    TwoPayouts(rows, Newest(d).payoutId, p);
    NewestIsPart(rows);
  }

  /** The most staked payout is the tentative winner, whether or not it is picked anew. */
  lemma WinnerIsPicked(d: Dispute)
    requires Escalated(d)
    ensures WinningOf(StakeRows(d)) == d.tentativeWinning
  {
    var rows, winner := Rounds(d), Newest(d).payoutId;
    GrowingSurvivesUnion(rows);
    forall p | p != winner
      ensures Staked(rows, p) < Staked(rows, winner)
    {
      NextBonds(d, p);
    }
    UniqueMostStaked(rows, winner);
  }

  // ---------------------------------------------------------------- runs

  datatype Event =
    | Create(id: string, payoutId: PayoutId, size: int)
    | Contribute(id: string, amount: int)
    | Complete(id: string)
    | Expire(ids: set<string>)

  function Next(d: Dispute, e: Event): Dispute {
    match e
    case Create(id, payoutId, size) => Created(d, id, payoutId, size)
    case Contribute(id, amount) => Contributed(d, id, amount)
    case Complete(id) => Completed(d, id)
    case Expire(ids) => Expired(d, ids)
  }

  predicate IsRow(d: Dispute, i: int, id: string) {
    0 <= i < |d.crowdsourcers| && d.crowdsourcers[i].crowdsourcerId == id
  }

  /** Crowdsourcer `i` is open and has gathered exactly what it set out to. */
  predicate IsFilled(d: Dispute, i: int) {
    IsOpen(d, i) && d.crowdsourcers[i].stake.amountStaked == d.crowdsourcers[i].size
  }

  /** What the chain lets happen: a new crowdsourcer has a fresh id and sets out for the bond of a payout that is not
      the tentative winner and has no open crowdsourcer; only open ones take stake; one is completed when it is filled;
      and any may be closed by an expiring fee window. */
  ghost predicate Allowed(d: Dispute, e: Event) {
    match e
    case Create(id, payoutId, size) =>
      && (forall i :: 0 <= i < |d.crowdsourcers| ==> d.crowdsourcers[i].crowdsourcerId != id)
      && (forall i :: IsOpen(d, i) ==> d.crowdsourcers[i].stake.payoutId != payoutId)
      && payoutId !in d.tentativeWinning && size == BondSize(d, payoutId)
    case Contribute(id, _) => forall i :: IsRow(d, i, id) ==> d.crowdsourcers[i].completed == None
    case Complete(id) => exists i :: IsRow(d, i, id) && IsFilled(d, i)
    case Expire(_) => true
  }

  /** Rows that differ only in open crowdsourcers select the same completed stakes. */
  lemma {:induction false} SameCompleted(a: seq<Crowdsourcer>, b: seq<Crowdsourcer>)
    requires |a| == |b|
    requires forall i :: 0 <= i < |a| ==>
      (a[i].completed == Some(true) <==> b[i].completed == Some(true))
          && (a[i].completed == Some(true) ==> a[i].stake == b[i].stake)
    ensures CompletedStakes(a) == CompletedStakes(b)
  {
    if a != [] {
      SameCompleted(a[..|a| - 1], b[..|b| - 1]);
    }
  }

  lemma {:induction false} CompletedAppend(a: seq<Crowdsourcer>, b: seq<Crowdsourcer>)
    ensures CompletedStakes(a + b) == CompletedStakes(a) + CompletedStakes(b)
    decreases |b|
  {
    if b == [] {
      assert a + b == a;
    } else {
      CompletedAppend(a, b[..|b| - 1]);
      assert (a + b)[..|a + b| - 1] == a + b[..|b| - 1];
    }
  }

  lemma {:induction false} NoneCompleted(rows: seq<Crowdsourcer>)
    requires forall i :: 0 <= i < |rows| ==> rows[i].completed != Some(true)
    ensures CompletedStakes(rows) == []
  {
    if rows != [] {
      NoneCompleted(rows[..|rows| - 1]);
    }
  }

  lemma CreateKeepsEscalated(d: Dispute, id: string, payoutId: PayoutId, size: int)
    requires Escalated(d) && Allowed(d, Create(id, payoutId, size))
    ensures Escalated(Created(d, id, payoutId, size)) && AllStakes(Created(d, id, payoutId, size)) == AllStakes(d)
  {
    hide AllPositive, StrictlyGrowing, Staked, TotalStaked, CompletedStakes, StakeRows;
    var row := Crowdsourcer(id, StakeRow(payoutId, 0), size, None, 0);
    CompletedAppend(d.crowdsourcers, [row]);
    NoneCompleted([row]);
    assert AllStakes(Created(d, id, payoutId, size)) == AllStakes(d);
    hide AllStakes;
    SameRows(d, Created(d, id, payoutId, size));
  }

  lemma ContributeKeepsEscalated(d: Dispute, id: string, amount: int)
    requires Escalated(d) && Allowed(d, Contribute(id, amount))
    ensures Escalated(Contributed(d, id, amount)) && AllStakes(Contributed(d, id, amount)) == AllStakes(d)
  {
    hide AllPositive, StrictlyGrowing, Staked, TotalStaked, CompletedStakes, StakeRows;
    var after := Contributed(d, id, amount);
    assert forall i :: 0 <= i < |d.crowdsourcers| && d.crowdsourcers[i].crowdsourcerId == id ==> IsRow(d, i, id);
    SameCompleted(d.crowdsourcers, after.crowdsourcers);
    SameRows(d, after);
  }

  lemma ExpireKeepsEscalated(d: Dispute, ids: set<string>)
    requires Escalated(d)
    ensures Escalated(Expired(d, ids)) && AllStakes(Expired(d, ids)) == AllStakes(d)
    ensures forall i :: IsOpen(Expired(d, ids), i) <==> IsOpen(d, i) && d.crowdsourcers[i].crowdsourcerId !in ids
  {
    hide AllPositive, StrictlyGrowing, Staked, TotalStaked, CompletedStakes, StakeRows;
    var after := Expired(d, ids);
    SameCompleted(d.crowdsourcers, after.crowdsourcers);
    SameRows(d, after);
    assert forall i :: IsOpen(after, i) ==> IsOpen(d, i) && after.crowdsourcers[i] == d.crowdsourcers[i];
  }

  predicate NoneIs(rows: seq<Crowdsourcer>, id: string) {
    forall i :: 0 <= i < |rows| ==> rows[i].crowdsourcerId != id
  }

  /** Completing a crowdsourcer that is not among the rows completes none of them. */
  lemma OthersClose(rows: seq<Crowdsourcer>, id: string)
    requires NoneIs(rows, id)
    ensures CompletedStakes(CompletedRows(rows, id)) == CompletedStakes(rows)
  {
    hide CompletedStakes;
    SameCompleted(rows, CompletedRows(rows, id));
  }

  lemma CompletedRowsConcat(a: seq<Crowdsourcer>, b: seq<Crowdsourcer>, id: string)
    ensures CompletedRows(a + b, id) == CompletedRows(a, id) + CompletedRows(b, id)
  {
  }

  lemma CompleteOneAmong(before: seq<Crowdsourcer>, c: Crowdsourcer, later: seq<Crowdsourcer>)
    requires c.completed == None && NoneIs(before, c.crowdsourcerId) && NoneIs(later, c.crowdsourcerId)
    requires forall i :: 0 <= i < |later| ==> later[i].completed != Some(true)
    ensures CompletedStakes(CompletedRows(before + [c] + later, c.crowdsourcerId))
        == CompletedStakes(before + [c] + later) + [c.stake]
  {
    hide CompletedStakes, CompletedRows;
    var id, done := c.crowdsourcerId, c.(completed := Some(true));
    CompletedRowsConcat(before + [c], later, id);
    CompletedRowsConcat(before, [c], id);
    assert CompletedRows([c], id) == [done] by { CompletedRowsOfOne(c); }
    CompletedAppend(before + [c], later);
    CompletedAppend(before, [c]);
    CompletedAppend(CompletedRows(before, id) + [done], CompletedRows(later, id));
    CompletedAppend(CompletedRows(before, id), [done]);
    OthersClose(before, id);
    OthersClose(later, id);
    NoneCompleted([c]);
    NoneCompleted(later);
    OneCompleted(done);
  }

  lemma CompletedRowsOfOne(c: Crowdsourcer)
    ensures CompletedRows([c], c.crowdsourcerId) == [c.(completed := Some(true))]
  {
  }

  /** Completing an open crowdsourcer adds its stake, and only its stake, to those that count. */
  lemma CompleteAddsItsStake(d: Dispute, i: int, id: string)
    requires Escalated(d) && IsRow(d, i, id) && d.crowdsourcers[i].completed == None
    ensures CompletedStakes(CompletedRows(d.crowdsourcers, id))
        == CompletedStakes(d.crowdsourcers) + [d.crowdsourcers[i].stake]
  {
    var rows := d.crowdsourcers;
    var before, c, later := rows[..i], rows[i], rows[i + 1..];
    assert rows == before + [c] + later;
    assert forall j :: 0 <= j < |later| ==> later[j] == rows[i + 1 + j];
    assert forall j :: 0 <= j < |before| ==> before[j] == rows[j];
    hide CompletedStakes, CompletedRows;
    CompleteOneAmong(before, c, later);
  }

  lemma OneCompleted(c: Crowdsourcer)
    requires c.completed == Some(true)
    ensures CompletedStakes([c]) == [c.stake]
  {
    assert [c][..0] == [];
  }

  /** One completed round: the payout just filled holds two thirds and wins, and the total stake at least doubles. */
  lemma CompleteKeepsEscalated(d: Dispute, i: int, id: string)
    requires Escalated(d) && IsRow(d, i, id) && IsFilled(d, i)
    ensures var after, p := Completed(d, id), d.crowdsourcers[i].stake.payoutId;
      && Escalated(after) && AllStakes(after) == AllStakes(d) + [d.crowdsourcers[i].stake]
      && after.tentativeWinning == {p}
      && 3 * Staked(StakeRows(after), p) == 2 * TotalStaked(StakeRows(after))
      && 2 * TotalStaked(StakeRows(d)) <= TotalStaked(StakeRows(after))
      && Newest(d).amountStaked < d.crowdsourcers[i].stake.amountStaked
  {
    hide CompletedStakes, Staked, TotalStaked, Deduplicated, MostStaked;
    var stake := d.crowdsourcers[i].stake;
    var rows := Rounds(d);
    CompleteAddsItsStake(d, i, id);
    NextBonds(d, stake.payoutId);
    var after := Completed(d, id);
    assert Rounds(after) == rows + [stake];
    StakedAppend(rows, stake, stake.payoutId);
    assert StrictlyGrowing(rows + [stake]) by { GrowsPast(rows, stake); }
    var picked := after.(tentativeWinning := {stake.payoutId});
    assert Rounds(picked) == rows + [stake];
    assert Escalated(picked);
    WinnerIsPicked(picked);
    GrowingSurvivesUnion(rows + [stake]);
    assert after == picked;
  }

  lemma GrowsPast(rows: seq<StakeRow>, stake: StakeRow)
    requires StrictlyGrowing(rows) && rows != [] && rows[|rows| - 1].amountStaked < stake.amountStaked
    ensures StrictlyGrowing(rows + [stake])
  {
  }

  function AfterEvents(d: Dispute, events: seq<Event>): Dispute
    decreases |events|
  {
    if events == [] then d else AfterEvents(Next(d, events[0]), events[1..])
  }

  ghost predicate AllAllowed(d: Dispute, events: seq<Event>)
    decreases |events|
  {
    events == [] || (Allowed(d, events[0]) && AllAllowed(Next(d, events[0]), events[1..]))
  }

  function Reported(report: StakeRow): Dispute {
    InitialReported(NO_DISPUTE, report)
  }

  lemma ReportedIsEscalated(report: StakeRow)
    requires 0 < report.amountStaked
    ensures Escalated(Reported(report))
  {
    assert Rounds(Reported(report)) == [report];
    StakedAppend([], report, report.payoutId);
    assert [] + [report] == [report];
  }

  lemma ReportedStake(report: StakeRow)
    ensures AllStakes(Reported(report)) == [report] && TotalStaked(StakeRows(Reported(report))) == report.amountStaked
  {
    hide Deduplicated;
    GrowingSurvivesUnion([report]);
    StakedAppend([], report, report.payoutId);
    assert [] + [report] == [report];
  }

  function Pow2(n: nat): nat {
    if n == 0 then 1 else 2 * Pow2(n - 1)
  }

  /** One log either leaves the stakes that count alone, or adds one and at least doubles them. */
  lemma NextKeepsEscalated(d: Dispute, e: Event)
    requires Escalated(d) && Allowed(d, e)
    ensures Escalated(Next(d, e))
    ensures
      || AllStakes(Next(d, e)) == AllStakes(d)
      || (|AllStakes(Next(d, e))| == |AllStakes(d)| + 1
          && 2 * TotalStaked(StakeRows(d)) <= TotalStaked(StakeRows(Next(d, e))))
  {
    hide Escalated, AllStakes, Created, Contributed, Completed, Expired, StakeRows, TotalStaked, IsFilled, IsOpen;
    match e
    case Create(id, payoutId, size) => CreateKeepsEscalated(d, id, payoutId, size);
    case Contribute(id, amount) => ContributeKeepsEscalated(d, id, amount);
    case Complete(id) =>
      var i :| IsRow(d, i, id) && IsFilled(d, i);
      CompleteKeepsEscalated(d, i, id);
    case Expire(ids) => ExpireKeepsEscalated(d, ids);
  }

  lemma {:induction false} EventsKeepEscalated(d: Dispute, events: seq<Event>)
    requires Escalated(d) && AllAllowed(d, events)
    ensures var after := AfterEvents(d, events);
      && Escalated(after) && |AllStakes(d)| <= |AllStakes(after)|
      && TotalStaked(StakeRows(d)) * Pow2(|AllStakes(after)| - |AllStakes(d)|) <= TotalStaked(StakeRows(after))
    decreases |events|
  {
    hide Escalated, AllStakes, Next, Allowed, StakeRows, TotalStaked;
    if events != [] {
      var next := Next(d, events[0]);
      NextKeepsEscalated(d, events[0]);
      EventsKeepEscalated(next, events[1..]);
      if AllStakes(next) == AllStakes(d) {
        SameRows(d, next);
      } else {
        Doubles(TotalStaked(StakeRows(d)), TotalStaked(StakeRows(next)),
            |AllStakes(AfterEvents(d, events))| - |AllStakes(next)|);
      }
    }
  }

  lemma SameRows(d: Dispute, next: Dispute)
    requires AllStakes(next) == AllStakes(d)
    ensures StakeRows(next) == StakeRows(d)
  {
  }

  lemma Doubles(was: int, now: int, n: nat)
    requires 2 * was <= now
    ensures was * Pow2(n + 1) <= now * Pow2(n)
  {
    assert was * Pow2(n + 1) == (2 * was) * Pow2(n);
  }

  /** Escalation: from an initial report on, every allowed run of logs keeps all of the above, and each completed round
      at least doubles the total stake. */
  lemma EveryRunEscalates(report: StakeRow, events: seq<Event>)
    requires 0 < report.amountStaked && AllAllowed(Reported(report), events)
    ensures var d := AfterEvents(Reported(report), events);
      && Escalated(d)
      && report.amountStaked * Pow2(|AllStakes(d)| - 1) <= TotalStaked(StakeRows(d))
  {
    hide Escalated, AfterEvents, AllAllowed, TotalStaked, StakeRows;
    ReportedIsEscalated(report);
    EventsKeepEscalated(Reported(report), events);
    ReportedStake(report);
  }

  // ---------------------------------------------------------------- what is shown

  /** With one open crowdsourcer at most for each payout, the summed open stakes are that crowdsourcer's own. */
  lemma {:induction false} OneOpenOn(rows: seq<Crowdsourcer>, p: PayoutId, i: nat)
    requires i < |rows| && rows[i].completed == None && rows[i].stake.payoutId == p
    requires forall j :: 0 <= j < |rows| && j != i ==> rows[j].completed != None || rows[j].stake.payoutId != p
    ensures OpenOn(rows, p) == [rows[i]]
    decreases |rows|
  {
    var before := rows[..|rows| - 1];
    if i == |rows| - 1 {
      NoneOpenOn(before, p);
    } else {
      OneOpenOn(before, p, i);
    }
  }

  lemma {:induction false} NoneOpenOn(rows: seq<Crowdsourcer>, p: PayoutId)
    requires forall j :: 0 <= j < |rows| ==> rows[j].completed != None || rows[j].stake.payoutId != p
    ensures OpenOn(rows, p) == []
  {
    if rows != [] {
      NoneOpenOn(rows[..|rows| - 1], p);
    }
  }

  predicate IsOpenOn(d: Dispute, p: PayoutId, i: int) {
    IsOpen(d, i) && d.crowdsourcers[i].stake.payoutId == p
  }

  /** What is summed up as current on a payout is its one open crowdsourcer, if it has any. */
  lemma CurrentIsOpenOne(d: Dispute, p: PayoutId)
    requires OpenForBonds(d)
    ensures CurrentStakeOn(d, p).None? <==> forall i :: !IsOpenOn(d, p, i)
    ensures forall i :: IsOpenOn(d, p, i) ==>
      CurrentStakeOn(d, p) == Some(CurrentStake(d.crowdsourcers[i].stake.amountStaked, d.crowdsourcers[i].size))
  {
    if i :| IsOpenOn(d, p, i) {
      OneOpenOn(d.crowdsourcers, p, i);
      assert SumCurrent([d.crowdsourcers[i]])
          == CurrentStake(d.crowdsourcers[i].stake.amountStaked, d.crowdsourcers[i].size) by {
        assert [d.crowdsourcers[i]][..0] == [];
      }
      assert forall j :: IsOpenOn(d, p, j) ==> j == i;
    } else {
      assert forall i :: 0 <= i < |d.crowdsourcers| && d.crowdsourcers[i].completed == None ==> IsOpen(d, i);
      forall i | 0 <= i < |d.crowdsourcers|
        ensures d.crowdsourcers[i].completed != None || d.crowdsourcers[i].stake.payoutId != p
      {
        assert !IsOpenOn(d, p, i);
      }
      NoneOpenOn(d.crowdsourcers, p);
    }
  }

  /** The sizes shown for a payout that is not winning, between logs: the bond is the one it needs now, whether or not a
      crowdsourcer is gathering it; the total with it would be two thirds of all stake; and nothing remains to be staked
      exactly when a crowdsourcer can be completed for it. */
  lemma ShownSizesAreBonds(d: Dispute, p: PayoutId)
    requires Escalated(d)
    ensures var shown := StakeDetailsOf(d, p, true);
      && (shown.sizes.None? <==> p in d.tentativeWinning)
      && (shown.sizes.Some? ==>
            var sizes, total := shown.sizes.value, TotalStaked(StakeRows(d));
            && sizes.bondSizeCurrent == BondSize(d, p)
            && sizes.stakeRemaining == BondSize(d, p) - shown.stakeCurrent
            && 3 * sizes.bondSizeTotal == 2 * (total + sizes.bondSizeCurrent)
            && sizes.bondSizeCurrent <= BondSizeOfNewStake(d)
            && (sizes.bondSizeCurrent == BondSizeOfNewStake(d) <==> shown.stakeCompleted == 0)
            && (sizes.stakeRemaining == 0 <==> exists i :: IsOpenOn(d, p, i) && IsFilled(d, i)))
  {
    hide Staked, TotalStaked, StakeRows, CurrentStakeOn, AllStakes;
    CurrentIsOpenOne(d, p);
    if p !in d.tentativeWinning {
      NextBonds(d, p);
      StakesNonnegative(d, p);
      if i :| IsOpenOn(d, p, i) {
        assert d.crowdsourcers[i].size == BondSize(d, p);
        assert forall j :: IsOpenOn(d, p, j) ==> j == i;
      }
    }
  }

  /** Whatever the market's state: the winner shown is the payout of the newest stake, which from the first completed
      round on holds two thirds of all stake; every payout is shown its completed stake and that of its open
      crowdsourcer; and sizes are shown only for the others, in an active market. */
  lemma ShownStakes(d: Dispute, p: PayoutId, isActiveMarketState: bool)
    requires Escalated(d)
    ensures var shown := StakeDetailsOf(d, p, isActiveMarketState);
      && (shown.tentativeWinning <==> p == Newest(d).payoutId)
      && (shown.tentativeWinning && 2 <= |AllStakes(d)| ==> 3 * shown.stakeCompleted == 2 * TotalStaked(AllStakes(d)))
      && (shown.tentativeWinning && |AllStakes(d)| == 1 ==> shown.stakeCompleted == d.initialReport.value.amountStaked)
      && shown.stakeCompleted == Staked(AllStakes(d), p)
      && (forall i :: IsOpenOn(d, p, i) ==> shown.stakeCurrent == d.crowdsourcers[i].stake.amountStaked)
      && ((forall i :: !IsOpenOn(d, p, i)) ==> shown.stakeCurrent == 0)
      && (shown.sizes.Some? <==> isActiveMarketState && !shown.tentativeWinning)
  {
    hide CurrentStakeOn;
    CurrentIsOpenOne(d, p);
    GrowingSurvivesUnion(AllStakes(d));
    if |AllStakes(d)| == 1 {
      assert AllStakes(d) == [d.initialReport.value];
      StakedAppend([], d.initialReport.value, p);
      assert [] + [d.initialReport.value] == [d.initialReport.value];
    }
  }

  lemma StakesNonnegative(d: Dispute, p: PayoutId)
    requires Escalated(d)
    ensures 0 <= Staked(StakeRows(d), p) && 0 < TotalStaked(StakeRows(d))
  {
    GrowingSurvivesUnion(AllStakes(d));
    TwoPayouts(AllStakes(d), p, p);
    NewestIsPart(AllStakes(d));
  }

  lemma {:induction false} CountedStakes(rows: seq<Crowdsourcer>)
    ensures CountCompleted(rows) == |CompletedStakes(rows)|
  {
    if rows != [] {
      CountedStakes(rows[..|rows| - 1]);
    }
  }

  /** Completed rounds in a run of logs. */
  function CountRounds(events: seq<Event>): nat {
    if events == [] then 0 else (if events[0].Complete? then 1 else 0) + CountRounds(events[1..])
  }

  lemma NextCounts(d: Dispute, e: Event)
    requires Escalated(d) && Allowed(d, e)
    ensures |AllStakes(Next(d, e))| == |AllStakes(d)| + if e.Complete? then 1 else 0
  {
    hide Escalated, AllStakes, Created, Contributed, Completed, Expired, StakeRows, TotalStaked, IsFilled, IsOpen;
    match e
    case Create(id, payoutId, size) => CreateKeepsEscalated(d, id, payoutId, size);
    case Contribute(id, amount) => ContributeKeepsEscalated(d, id, amount);
    case Complete(id) =>
      var i :| IsRow(d, i, id) && IsFilled(d, i);
      CompleteKeepsEscalated(d, i, id);
    case Expire(ids) => ExpireKeepsEscalated(d, ids);
  }

  lemma {:induction false} RunCounts(d: Dispute, events: seq<Event>)
    requires Escalated(d) && AllAllowed(d, events)
    ensures |AllStakes(AfterEvents(d, events))| == |AllStakes(d)| + CountRounds(events)
    decreases |events|
  {
    hide Escalated, AllStakes, Next, Allowed;
    if events != [] {
      NextKeepsEscalated(d, events[0]);
      NextCounts(d, events[0]);
      RunCounts(Next(d, events[0]), events[1..]);
    }
  }

  /** The round shown is one more than the rounds completed in the run. */
  lemma ShownRoundCountsRounds(report: StakeRow, events: seq<Event>)
    requires 0 < report.amountStaked && AllAllowed(Reported(report), events)
    ensures DisputeRound(AfterEvents(Reported(report), events)) == Some(CountRounds(events) + 1)
  {
    hide AfterEvents, AllAllowed, TotalStaked, StakeRows, CountRounds;
    EveryRunEscalates(report, events);
    var d := AfterEvents(Reported(report), events);
    StakesNonnegative(d, 0);
    CountedStakes(d.crowdsourcers);
    ReportedIsEscalated(report);
    ReportedStake(report);
    RunCounts(Reported(report), events);
  }

  /** No crowdsourcer is disavowed before it is closed, nor more than once. */
  predicate DisavowedOnce(d: Dispute) {
    forall i :: 0 <= i < |d.crowdsourcers| ==>
      && 0 <= d.crowdsourcers[i].disavowed <= 1
      && (d.crowdsourcers[i].disavowed == 1 ==> d.crowdsourcers[i].completed == Some(false))
  }

  /** A completed round disavows every other open crowdsourcer once more, and no other crowdsourcer. */
  lemma CompletionDisavowsOthers(d: Dispute, id: string, i: nat)
    requires i < |d.crowdsourcers|
    ensures var was, now := d.crowdsourcers[i], Completed(d, id).crowdsourcers[i];
      && now.disavowed == was.disavowed + (if was.completed == None && was.crowdsourcerId != id then 1 else 0)
      && now.completed == (if was.crowdsourcerId == id then Some(true)
                           else if was.completed == None then Some(false) else was.completed)
      && now.crowdsourcerId == was.crowdsourcerId && now.stake == was.stake && now.size == was.size
  {
  }

  /** Over every run, each crowdsourcer is disavowed at most once, and only one closed without having filled. */
  lemma {:induction false} RunDisavowsOnce(d: Dispute, events: seq<Event>)
    requires Escalated(d) && DisavowedOnce(d) && AllAllowed(d, events)
    ensures DisavowedOnce(AfterEvents(d, events))
    decreases |events|
  {
    hide Escalated, DisavowedOnce;
    if events != [] {
      NextKeepsEscalated(d, events[0]);
      NextDisavowsOnce(d, events[0]);
      RunDisavowsOnce(Next(d, events[0]), events[1..]);
    }
  }

  lemma NextDisavowsOnce(d: Dispute, e: Event)
    requires Escalated(d) && DisavowedOnce(d) && Allowed(d, e)
    ensures DisavowedOnce(Next(d, e))
  {
    if e.Complete? {
      var i :| IsRow(d, i, e.id) && IsFilled(d, i);
      assert forall j :: 0 <= j < |d.crowdsourcers| && d.crowdsourcers[j].crowdsourcerId == e.id ==> j == i;
    }
  }

  /** The round shown counts the stakes so far, so the total stake is at least the initial report doubled once a
      round. */
  lemma ShownRoundBoundsStake(report: StakeRow, events: seq<Event>)
    requires 0 < report.amountStaked && AllAllowed(Reported(report), events)
    ensures var d := AfterEvents(Reported(report), events);
      DisputeRound(d).Some? && report.amountStaked * Pow2(DisputeRound(d).value - 1) <= TotalStaked(StakeRows(d))
  {
    hide AfterEvents, AllAllowed, TotalStaked, StakeRows;
    EveryRunEscalates(report, events);
    var d := AfterEvents(Reported(report), events);
    StakesNonnegative(d, 0);
    CountedStakes(d.crowdsourcers);
  }

  // ---------------------------------------------------------------- reports taken back

  /** The initial report leaves its payout as the one tentative winner exactly when no other is marked before, and it
      is itself new or marked. */
  lemma ReportMarksItsPayout(d: Dispute, report: StakeRow)
    requires d.tentativeWinning <= d.payouts
    ensures InitialReported(d, report).tentativeWinning == {report.payoutId} <==>
      && d.tentativeWinning <= {report.payoutId}
      && (report.payoutId in d.payouts ==> report.payoutId in d.tentativeWinning)
  {
    var p, marked := report.payoutId, d.tentativeWinning;
    if p !in d.payouts {
      assert p !in marked;
      assert marked + {p} == {p} ==> forall q :: q in marked ==> q in {p};
    }
  }

  /** A report taken back and made again for another payout leaves two payouts marked as winning. */
  lemma ReportedAgainMarksTwo()
    ensures var again := InitialReported(InitialReportRemoved(Reported(StakeRow(0, 100))), StakeRow(1, 100));
      again.tentativeWinning == {0, 1} && WinningOf(StakeRows(again)) == {1}
  {
    hide Staked, MostStaked, Deduplicated;
    var again := InitialReported(InitialReportRemoved(Reported(StakeRow(0, 100))), StakeRow(1, 100));
    ReportedStake(StakeRow(1, 100));
    assert AllStakes(again) == [StakeRow(1, 100)];
    SameRows(Reported(StakeRow(1, 100)), again);
    ReportedIsEscalated(StakeRow(1, 100));
    WinnerIsPicked(Reported(StakeRow(1, 100)));
  }

  // ---------------------------------------------------------------- equal stakes

  /** A crowdsourcer created, filled with one contribution and completed. */
  function Round(id: string, payoutId: PayoutId, amount: int): seq<Event> {
    [Create(id, payoutId, amount), Contribute(id, amount), Complete(id)]
  }

  /** Two completed crowdsourcers of equal stake on one payout are counted once: the UNION drops one of them. The
      contracts emit no such logs, since each round gathers more than the one before. */
  lemma UnionDropsEqualStakes()
    ensures var d := AfterEvents(Reported(StakeRow(0, 100)), Round("0xaa", 1, 200) + Round("0xbb", 1, 200));
      && Staked(AllStakes(d), 1) == 400 && Staked(StakeRows(d), 1) == 200
      && TotalStaked(AllStakes(d)) == 500 && TotalStaked(StakeRows(d)) == 300
  {
    hide AfterEvents, Staked, TotalStaked, Deduplicated;
    TwoRounds();
    OneOfTwoCounts(StakeRow(0, 100), StakeRow(1, 200));
  }

  lemma TwoRounds()
    ensures var d := AfterEvents(Reported(StakeRow(0, 100)), Round("0xaa", 1, 200) + Round("0xbb", 1, 200));
      AllStakes(d) == [] + [StakeRow(0, 100)] + [StakeRow(1, 200)] + [StakeRow(1, 200)]
  {
    hide AfterEvents, CompletedStakes, Round;
    var start := Reported(StakeRow(0, 100));
    var first, second := Round("0xaa", 1, 200), Round("0xbb", 1, 200);
    RoundOf(start, "0xaa", 1, 200);
    RoundOf(AfterEvents(start, first), "0xbb", 1, 200);
    EventsCompose(start, first, second);
    NoneCompleted([]);
  }

  lemma OneOfTwoCounts(report: StakeRow, stake: StakeRow)
    requires report != stake && report.payoutId != stake.payoutId
    ensures var all := [] + [report] + [stake] + [stake];
      && Staked(all, stake.payoutId) == 2 * stake.amountStaked
      && Staked(Deduplicated(all), stake.payoutId) == stake.amountStaked
      && TotalStaked(all) == report.amountStaked + 2 * stake.amountStaked
      && TotalStaked(Deduplicated(all)) == report.amountStaked + stake.amountStaked
  {
    hide Staked, TotalStaked, Deduplicated;
    var one, two := [] + [report], [] + [report] + [stake];
    DeduplicatedAppend([], report);
    DeduplicatedAppend(one, stake);
    DeduplicatedAppend(two, stake);
    StakedAppend([], report, stake.payoutId);
    StakedAppend(one, stake, stake.payoutId);
    StakedAppend(two, stake, stake.payoutId);
    NothingStaked(stake.payoutId);
  }

  lemma {:induction false} EventsCompose(d: Dispute, a: seq<Event>, b: seq<Event>)
    ensures AfterEvents(d, a + b) == AfterEvents(AfterEvents(d, a), b)
    decreases |a|
  {
    hide Next;
    if a == [] {
      assert a + b == b;
    } else {
      assert (a + b)[1..] == a[1..] + b;
      EventsCompose(Next(d, a[0]), a[1..], b);
    }
  }

  /** Such a round, for a fresh id and with no other crowdsourcer open, adds one completed crowdsourcer. */
  lemma RoundOf(d: Dispute, id: string, payoutId: PayoutId, amount: int)
    requires NoneIs(d.crowdsourcers, id) && forall i :: !IsOpen(d, i)
    ensures var after := AfterEvents(d, Round(id, payoutId, amount));
      && after.initialReport == d.initialReport
      && after.crowdsourcers == d.crowdsourcers
         + [Crowdsourcer(id, StakeRow(payoutId, amount), amount, Some(true), 0)]
      && CompletedStakes(after.crowdsourcers) == CompletedStakes(d.crowdsourcers) + [StakeRow(payoutId, amount)]
  {
    hide CompletedStakes, StakeRows, MostStaked;
    var first := Created(d, id, payoutId, amount);
    var second := Contributed(first, id, amount);
    var third := Completed(second, id);
    var rest := Round(id, payoutId, amount);
    assert AfterEvents(d, rest) == third by {
      assert rest[1..] == [Contribute(id, amount), Complete(id)] && rest[1..][1..] == [Complete(id)];
      assert AfterEvents(second, [Complete(id)]) == third;
      assert AfterEvents(first, rest[1..]) == third;
    }
    forall i | 0 <= i < |d.crowdsourcers|
      ensures third.crowdsourcers[i] == d.crowdsourcers[i]
    {
      assert !IsOpen(d, i);
    }
    var row := Crowdsourcer(id, StakeRow(payoutId, amount), amount, Some(true), 0);
    assert third.crowdsourcers == d.crowdsourcers + [row];
    CompletedAppend(d.crowdsourcers, [row]);
    OneCompleted(row);
  }
}
