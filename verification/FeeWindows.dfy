/** Fee windows opening and closing with time, and the crowdsourcers attached to them. */
module FeeWindows {
  import opened Results

  type Address = string

  datatype FeeWindowState = FUTURE | CURRENT | PAST

  datatype FeeWindow = FeeWindow(universe: Address, startTime: int, endTime: int, state: FeeWindowState)

  /** `completed` is null while the crowdsourcer may still fill. */
  datatype CrowdsourcerRow = CrowdsourcerRow(marketId: Address, feeWindow: Address, completed: Option<bool>)

  datatype Tables = Tables(time: int, feeWindows: map<Address, FeeWindow>, crowdsourcers: map<Address, CrowdsourcerRow>)

  // ---------------------------------------------------------------- changes of the tables

  function WithState(windows: map<Address, FeeWindow>, ids: set<Address>,
      state: FeeWindowState): map<Address, FeeWindow> {
    map w | w in windows :: if w in ids then windows[w].(state := state) else windows[w]
  }

  function Expired(windows: map<Address, FeeWindow>, timestamp: int): set<Address> {
    set w | w in windows && windows[w].state != PAST && windows[w].endTime < timestamp
  }

  function NewlyActive(windows: map<Address, FeeWindow>, timestamp: int): set<Address> {
    set w | w in windows && windows[w].state != CURRENT && windows[w].endTime > timestamp
        && windows[w].startTime < timestamp
  }

  /** Expired windows close first; then the windows around `timestamp` open. */
  function WindowsAt(windows: map<Address, FeeWindow>, timestamp: int): map<Address, FeeWindow> {
    var closed := WithState(windows, Expired(windows, timestamp), PAST);
    WithState(closed, NewlyActive(closed, timestamp), CURRENT)
  }

  /** Crowdsourcers still open when their window closes have not filled. */
  function WithoutExpired(crowdsourcers: map<Address, CrowdsourcerRow>,
      expired: set<Address>): map<Address, CrowdsourcerRow> {
    map c | c in crowdsourcers ::
      if crowdsourcers[c].completed == None && crowdsourcers[c].feeWindow in expired
      then crowdsourcers[c].(completed := Some(false)) else crowdsourcers[c]
  }

  function Advanced(t: Tables, timestamp: int): Tables {
    Tables(timestamp, WindowsAt(t.feeWindows, timestamp),
        WithoutExpired(t.crowdsourcers, Expired(t.feeWindows, timestamp)))
  }

  function WindowCreated(t: Tables, id: Address, universe: Address, startTime: int, endTime: int): Tables {
    Advanced(t.(feeWindows := t.feeWindows[id := FeeWindow(universe, startTime, endTime, FUTURE)]), t.time)
  }

  predicate IsCurrentIn(t: Tables, w: Address, universe: Address) {
    w in t.feeWindows && t.feeWindows[w].state == CURRENT && t.feeWindows[w].universe == universe
  }

  function CompletedAmong(crowdsourcers: map<Address, CrowdsourcerRow>, id: Address,
      marketId: Address): map<Address, CrowdsourcerRow> {
    map c | c in crowdsourcers ::
      if c == id then crowdsourcers[c].(completed := Some(true))
      else if crowdsourcers[c].marketId == marketId && crowdsourcers[c].completed == None
      then crowdsourcers[c].(completed := Some(false)) else crowdsourcers[c]
  }

  // ---------------------------------------------------------------- the processors

  class FeeWindowTables {
    var blockHeadTimestamp: int
    var feeWindows: map<Address, FeeWindow>
    var crowdsourcers: map<Address, CrowdsourcerRow>

    function Rows(): Tables
      reads this
    {
      Tables(blockHeadTimestamp, feeWindows, crowdsourcers)
    }

    constructor (time: int)
      ensures Rows() == Tables(time, map[], map[])
    {
      blockHeadTimestamp, feeWindows, crowdsourcers := time, map[], map[];
    }

    method UpdateActiveFeeWindows(timestamp: int) returns (expired: set<Address>, newActive: set<Address>)
      modifies this`feeWindows
      ensures expired == Expired(old(feeWindows), timestamp)
      ensures newActive == NewlyActive(WithState(old(feeWindows), expired, PAST), timestamp)
      ensures feeWindows == WindowsAt(old(feeWindows), timestamp)
    {
      expired := set w | w in feeWindows && feeWindows[w].state != PAST && feeWindows[w].endTime < timestamp;
      feeWindows := WithState(feeWindows, expired, PAST);
      newActive := set w | w in feeWindows && feeWindows[w].state != CURRENT
                           && feeWindows[w].endTime > timestamp && feeWindows[w].startTime < timestamp;
      feeWindows := WithState(feeWindows, newActive, CURRENT);
    }

    /** Afterwards no crowdsourcer of an expired window is open; those that were have not filled, and no other row
        changes. */
    method AdvanceIncompleteCrowdsourcers(expired: set<Address>)
      modifies this`crowdsourcers
      ensures crowdsourcers.Keys == old(crowdsourcers).Keys
      ensures forall c ::
          c in crowdsourcers && crowdsourcers[c].feeWindow in expired ==> crowdsourcers[c].completed.Some?
      ensures forall c :: c in crowdsourcers && crowdsourcers[c] != old(crowdsourcers)[c] ==>
        && old(crowdsourcers)[c].completed == None && old(crowdsourcers)[c].feeWindow in expired
        && crowdsourcers[c] == old(crowdsourcers)[c].(completed := Some(false))
      ensures crowdsourcers == WithoutExpired(old(crowdsourcers), expired)
    {
      crowdsourcers := WithoutExpired(crowdsourcers, expired);
    }

    /** Opens and closes windows, then closes the crowdsourcers left open in expired ones. */
    method AdvanceFeeWindowActive(timestamp: int)
      modifies this`feeWindows, this`crowdsourcers
      ensures Tables(timestamp, feeWindows, crowdsourcers) == Advanced(old(Rows()), timestamp)
    {
      var expired, newActive := UpdateActiveFeeWindows(timestamp);
      if expired == {} && newActive == {} {
        assert crowdsourcers == WithoutExpired(crowdsourcers, expired);
        return;
      }
      AdvanceIncompleteCrowdsourcers(expired);
    }

    method ProcessBlock(timestamp: int)
      modifies this
      ensures Rows() == Advanced(old(Rows()), timestamp)
    {
      blockHeadTimestamp := timestamp;
      AdvanceFeeWindowActive(timestamp);
    }

    /** The window is stored as logged, in the state the clock calls for; no other window's universe or times change. */
    method ProcessFeeWindowCreatedLog(id: Address, universe: Address, startTime: int, endTime: int)
      modifies this
      ensures feeWindows.Keys == old(feeWindows).Keys + {id} && blockHeadTimestamp == old(blockHeadTimestamp)
      ensures feeWindows[id] == FeeWindow(universe, startTime, endTime,
        if endTime < blockHeadTimestamp then PAST
        else if startTime < blockHeadTimestamp < endTime then CURRENT else FUTURE)
      ensures forall w :: w in feeWindows && w != id ==>
        feeWindows[w] == old(feeWindows)[w].(state := feeWindows[w].state)
      ensures Rows() == WindowCreated(old(Rows()), id, universe, startTime, endTime)
    {
      feeWindows := feeWindows[id := FeeWindow(universe, startTime, endTime, FUTURE)];
      AdvanceFeeWindowActive(blockHeadTimestamp);
    }

    /** Attaches a new crowdsourcer to a current window of its universe; fails when there is none. */
    method ProcessDisputeCrowdsourcerCreatedLog(id: Address, marketId: Address,
        universe: Address) returns (outcome: Result<Address>)
      modifies this`crowdsourcers
      ensures outcome.Err? <==> forall w :: !IsCurrentIn(old(Rows()), w, universe)
      ensures outcome.Err? ==> crowdsourcers == old(crowdsourcers)
      ensures outcome.Ok? ==> IsCurrentIn(old(Rows()), outcome.value, universe)
      ensures outcome.Ok? ==> Allowed(old(Rows()), CreateCrowdsourcer(id, marketId, outcome.value))
      ensures outcome.Ok? ==> Rows() == Next(old(Rows()), CreateCrowdsourcer(id, marketId, outcome.value))
      ensures outcome.Ok? ==> crowdsourcers == old(crowdsourcers)[id := CrowdsourcerRow(marketId, outcome.value, None)]
    {
      var current := set w | w in feeWindows && IsCurrentIn(Rows(), w, universe);
      if current == {} {
        assert forall w :: IsCurrentIn(Rows(), w, universe) ==> w in current;
        return Err("could not retrieve feeWindow");
      }
      var feeWindow :| feeWindow in current;
      crowdsourcers := crowdsourcers[id := CrowdsourcerRow(marketId, feeWindow, None)];
      outcome := Ok(feeWindow);
    }

    /** Afterwards the crowdsourcer is completed and no other of the market is open; those that were have not filled,
        and no other row changes. */
    method ProcessDisputeCrowdsourcerCompletedLog(id: Address, marketId: Address)
      modifies this`crowdsourcers
      ensures crowdsourcers.Keys == old(crowdsourcers).Keys
      ensures id in crowdsourcers ==> crowdsourcers[id] == old(crowdsourcers)[id].(completed := Some(true))
      ensures forall c ::
          c in crowdsourcers && crowdsourcers[c].marketId == marketId ==> crowdsourcers[c].completed.Some?
      ensures forall c :: c in crowdsourcers && c != id && crowdsourcers[c] != old(crowdsourcers)[c] ==>
        && old(crowdsourcers)[c].completed == None && old(crowdsourcers)[c].marketId == marketId
        && crowdsourcers[c] == old(crowdsourcers)[c].(completed := Some(false))
      ensures crowdsourcers == CompletedAmong(old(crowdsourcers), id, marketId)
    {
      crowdsourcers := CompletedAmong(crowdsourcers, id, marketId);
    }
  }

  // ---------------------------------------------------------------- runs

  datatype Event =
    | Block(timestamp: int)
    | CreateWindow(id: Address, universe: Address, startTime: int, endTime: int)
    | CreateCrowdsourcer(id: Address, marketId: Address, feeWindow: Address)
    | CompleteCrowdsourcer(id: Address, marketId: Address)

  function Next(t: Tables, e: Event): Tables {
    match e
    case Block(timestamp) => Advanced(t, timestamp)
    case CreateWindow(id, universe, startTime, endTime) => WindowCreated(t, id, universe, startTime, endTime)
    case CreateCrowdsourcer(id, marketId, feeWindow) =>
        t.(crowdsourcers := t.crowdsourcers[id := CrowdsourcerRow(marketId, feeWindow, None)])
    case CompleteCrowdsourcer(id, marketId) => t.(crowdsourcers := CompletedAmong(t.crowdsourcers, id, marketId))
  }

  predicate Overlap(a: FeeWindow, b: FeeWindow) {
    a.universe == b.universe && a.startTime < b.endTime && b.startTime < a.endTime
  }

  /** Time does not go back; a new window is new and overlaps none of its universe; a new crowdsourcer is attached to a
      current window. */
  ghost predicate Allowed(t: Tables, e: Event) {
    match e
    case Block(timestamp) => t.time <= timestamp
    case CreateWindow(id, universe, startTime, endTime) =>
      && id !in t.feeWindows && startTime < endTime
      && forall w <- t.feeWindows :: !Overlap(t.feeWindows[w], FeeWindow(universe, startTime, endTime, FUTURE))
    case CreateCrowdsourcer(_, _, feeWindow) => feeWindow in t.feeWindows && t.feeWindows[feeWindow].state == CURRENT
    case CompleteCrowdsourcer(_, _) => true
  }

  /** A window's state against the clock. A window the clock skipped over is still future at its very end time. */
  predicate StateFits(w: FeeWindow, time: int) {
    match w.state
    case FUTURE => time <= w.endTime && !(w.startTime < time < w.endTime)
    case CURRENT => w.startTime < time <= w.endTime
    case PAST => w.endTime < time
  }

  ghost predicate Consistent(t: Tables) {
    && (forall w <- t.feeWindows ::
        t.feeWindows[w].startTime < t.feeWindows[w].endTime && StateFits(t.feeWindows[w], t.time))
    && (forall v <- t.feeWindows, w <- t.feeWindows :: v != w ==> !Overlap(t.feeWindows[v], t.feeWindows[w]))
    && (forall c <- t.crowdsourcers :: t.crowdsourcers[c].completed == None ==>
          t.crowdsourcers[c].feeWindow in t.feeWindows && t.feeWindows[t.crowdsourcers[c].feeWindow].state == CURRENT)
  }

  function Rank(state: FeeWindowState): nat {
    match state case FUTURE => 0 case CURRENT => 1 case PAST => 2
  }

  /** No window is lost, and none goes back to an earlier state. */
  ghost predicate Forward(before: Tables, after: Tables) {
    && before.time <= after.time
    && forall w <- before.feeWindows :: w in after.feeWindows
         && Rank(before.feeWindows[w].state) <= Rank(after.feeWindows[w].state)
  }

  /** Advancing changes windows in their state only, and attaches no crowdsourcer anywhere else. */
  lemma AdvanceKeepsWindows(t: Tables, timestamp: int)
    ensures var after := Advanced(t, timestamp);
      && after.time == timestamp && after.feeWindows.Keys == t.feeWindows.Keys
      && (forall w <- t.feeWindows :: after.feeWindows[w] == t.feeWindows[w].(state := after.feeWindows[w].state))
      && after.crowdsourcers.Keys == t.crowdsourcers.Keys
      && (forall c <- t.crowdsourcers ::
            after.crowdsourcers[c] == t.crowdsourcers[c].(completed := after.crowdsourcers[c].completed))
  {
  }

  /** A window as its creation logged it. */
  datatype Logged = Logged(universe: Address, startTime: int, endTime: int)

  /** The windows that a run creates, as logged; a later log of the same window wins. */
  function LoggedWindows(events: seq<Event>): map<Address, Logged> {
    if events == [] then map[]
    else
      var before, e := LoggedWindows(events[..|events| - 1]), events[|events| - 1];
      if e.CreateWindow? then before[e.id := Logged(e.universe, e.startTime, e.endTime)] else before
  }

  /** The time of the last block of a run. */
  function Clock(time: int, events: seq<Event>): int {
    if events == [] then time
    else
      var e := events[|events| - 1];
      if e.Block? then e.timestamp else Clock(time, events[..|events| - 1])
  }

  ghost predicate StoresLogged(t: Tables, windows: map<Address, Logged>) {
    && t.feeWindows.Keys == windows.Keys
    && forall w <- windows :: t.feeWindows[w] ==
        FeeWindow(windows[w].universe, windows[w].startTime, windows[w].endTime, t.feeWindows[w].state)
  }

  lemma NextStoresLogged(t: Tables, e: Event, windows: map<Address, Logged>)
    requires StoresLogged(t, windows)
    ensures StoresLogged(
      Next(t, e), if e.CreateWindow? then windows[e.id := Logged(e.universe, e.startTime, e.endTime)] else windows)
    ensures Next(t, e).time == if e.Block? then e.timestamp else t.time
  {
    hide Advanced;
    match e
    case Block(timestamp) => AdvanceKeepsWindows(t, timestamp);
    case CreateWindow(id, universe, startTime, endTime) =>
      var window := FeeWindow(universe, startTime, endTime, FUTURE);
      AdvanceKeepsWindows(t.(feeWindows := t.feeWindows[id := window]), t.time);
    case CreateCrowdsourcer(_, _, _) =>
    case CompleteCrowdsourcer(_, _) =>
  }

  /** Over every run from empty tables, the windows stored are exactly those logged, each with its logged universe and
      times, and the clock is that of the last block. */
  lemma {:induction false} RunStoresLogged(time: int, events: seq<Event>)
    ensures var t := AfterEvents(Tables(time, map[], map[]), events);
      StoresLogged(t, LoggedWindows(events)) && t.time == Clock(time, events)
    decreases |events|
  {
    hide StoresLogged, Next;
    if events == [] {
      NothingStored(time);
    } else {
      var before, last := events[..|events| - 1], events[|events| - 1];
      RunStoresLogged(time, before);
      assert events == before + [last];
      AfterLast(Tables(time, map[], map[]), before, last);
      NextStoresLogged(AfterEvents(Tables(time, map[], map[]), before), last, LoggedWindows(before));
    }
  }

  lemma NothingStored(time: int)
    ensures StoresLogged(Tables(time, map[], map[]), map[])
  {
  }

  lemma {:induction false} AfterLast(t: Tables, events: seq<Event>, e: Event)
    ensures AfterEvents(t, events + [e]) == Next(AfterEvents(t, events), e)
    decreases |events|
  {
    hide Next;
    if events == [] {
      assert [e][1..] == [] && [] + [e] == [e];
      assert AfterEvents(Next(t, e), []) == Next(t, e);
    } else {
      assert (events + [e])[1..] == events[1..] + [e];
      AfterLast(Next(t, events[0]), events[1..], e);
    }
  }

  lemma AdvanceKeepsConsistent(t: Tables, timestamp: int)
    requires t.time <= timestamp
    requires forall w <- t.feeWindows :: t.feeWindows[w].startTime < t.feeWindows[w].endTime
    requires forall w <- t.feeWindows :: StateFits(t.feeWindows[w], t.time) || t.feeWindows[w].state == FUTURE
    requires forall v <- t.feeWindows, w <- t.feeWindows :: v != w ==> !Overlap(t.feeWindows[v], t.feeWindows[w])
    requires forall c <- t.crowdsourcers :: t.crowdsourcers[c].completed == None ==>
      t.crowdsourcers[c].feeWindow in t.feeWindows && t.feeWindows[t.crowdsourcers[c].feeWindow].state == CURRENT
    ensures Consistent(Advanced(t, timestamp)) && Forward(t, Advanced(t, timestamp))
  {
    var after := Advanced(t, timestamp);
    forall w | w in t.feeWindows
      ensures w in after.feeWindows && StateFits(after.feeWindows[w], timestamp)
      ensures after.feeWindows[w] == t.feeWindows[w].(state := after.feeWindows[w].state)
      ensures Rank(t.feeWindows[w].state) <= Rank(after.feeWindows[w].state)
    {
    }
  }

  lemma NextKeepsConsistent(t: Tables, e: Event)
    requires Consistent(t) && Allowed(t, e)
    ensures Consistent(Next(t, e)) && Forward(t, Next(t, e))
  {
    match e
    case Block(timestamp) => AdvanceKeepsConsistent(t, timestamp);
    case CreateWindow(id, universe, startTime, endTime) =>
      AdvanceKeepsConsistent(t.(feeWindows := t.feeWindows[id := FeeWindow(universe, startTime, endTime, FUTURE)]),
          t.time);
    case CreateCrowdsourcer(_, _, _) =>
    case CompleteCrowdsourcer(_, _) =>
  }

  function AfterEvents(t: Tables, events: seq<Event>): Tables
    decreases |events|
  {
    if events == [] then t else AfterEvents(Next(t, events[0]), events[1..])
  }

  ghost predicate AllAllowed(t: Tables, events: seq<Event>)
    decreases |events|
  {
    events == [] || (Allowed(t, events[0]) && AllAllowed(Next(t, events[0]), events[1..]))
  }

  lemma {:induction false} RunKeepsConsistent(t: Tables, events: seq<Event>)
    requires Consistent(t) && AllAllowed(t, events)
    ensures Consistent(AfterEvents(t, events)) && Forward(t, AfterEvents(t, events))
    decreases |events|
  {
    hide Consistent, Next, Allowed;
    if events != [] {
      NextKeepsConsistent(t, events[0]);
      RunKeepsConsistent(Next(t, events[0]), events[1..]);
    }
  }

  /** At most one window of a universe is current, and every window the clock stands strictly inside is. */
  lemma OneCurrentPerUniverse(t: Tables, v: Address, w: Address)
    requires Consistent(t) && v in t.feeWindows && w in t.feeWindows
    ensures
      t.feeWindows[v].state == CURRENT == t.feeWindows[w].state && t.feeWindows[v].universe == t.feeWindows[w].universe
      ==> v == w
    ensures t.feeWindows[v].startTime < t.time < t.feeWindows[v].endTime ==> t.feeWindows[v].state == CURRENT
  {
  }

  /** Every run from empty tables: windows only move forward from any moment to any later one, at most one window of a
      universe is current, and no open crowdsourcer is attached to a past window. */
  lemma EveryRunMovesForward(time: int, before: seq<Event>, later: seq<Event>)
    requires AllAllowed(Tables(time, map[], map[]), before + later)
    ensures var mid := AfterEvents(Tables(time, map[], map[]), before);
      var end := AfterEvents(Tables(time, map[], map[]), before + later);
      && Forward(mid, end)
      && (forall v <- end.feeWindows, w <- end.feeWindows ::
            IsCurrentIn(end, v, end.feeWindows[w].universe) && IsCurrentIn(end, w, end.feeWindows[w].universe) ==>
                v == w)
      && (forall c <- end.crowdsourcers :: end.crowdsourcers[c].completed == None ==>
            end.crowdsourcers[c].feeWindow in end.feeWindows
                && end.feeWindows[end.crowdsourcers[c].feeWindow].state != PAST)
  {
    var start := Tables(time, map[], map[]);
    RunSplits(start, before, later);
    RunKeepsConsistent(start, before);
    RunKeepsConsistent(AfterEvents(start, before), later);
    var end := AfterEvents(start, before + later);
    forall v, w | v in end.feeWindows && w in end.feeWindows
      ensures IsCurrentIn(end, v, end.feeWindows[w].universe) && IsCurrentIn(end, w, end.feeWindows[w].universe) ==>
          v == w
    {
      OneCurrentPerUniverse(end, v, w);
    }
  }

  lemma {:induction false} RunSplits(t: Tables, before: seq<Event>, later: seq<Event>)
    requires AllAllowed(t, before + later)
    ensures AllAllowed(t, before) && AllAllowed(AfterEvents(t, before), later)
    ensures AfterEvents(t, before + later) == AfterEvents(AfterEvents(t, before), later)
    decreases |before|
  {
    hide Next, Allowed;
    if before == [] {
      assert before + later == later;
    } else {
      assert (before + later)[1..] == before[1..] + later;
      RunSplits(Next(t, before[0]), before[1..], later);
    }
  }
}
