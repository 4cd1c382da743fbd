/** Time bucketing of timeseries: bucket ends, and the row that stands at each of them. */
module Buckets {
  import opened Results

  const DEFAULT_NUMBER_OF_BUCKETS: nat := 30

  // ---------------------------------------------------------------- bucket ends

  function DivideUp(x: nat, n: nat): nat
    requires 0 < n
  {
    (x + n - 1) / n
  }

  /** Seconds between bucket ends. */
  function IntervalOf(startTime: int, endTime: int, periodInterval: Option<int>): int
    requires startTime <= endTime
  {
    match periodInterval
    case Some(interval) => interval
    case None => DivideUp(endTime - startTime, DEFAULT_NUMBER_OF_BUCKETS)
  }

  /** Bucket ends step by the interval from the start time, and the last one is the end time however far it is. */
  predicate BucketEnds(b: seq<int>, startTime: int, endTime: int, interval: int)
    requires startTime < endTime ==> 0 < interval
  {
    && |b| >= 1 && b[|b| - 1] == endTime
    && (startTime == endTime ==> b == [endTime])
    && (startTime < endTime ==> b[0] == startTime && |b| == DivideUp(endTime - startTime, interval) + 1)
    && (forall i :: 0 <= i < |b| - 1 ==> b[i] < b[i + 1] <= b[i] + interval)
    && (forall i :: 0 <= i < |b| - 1 ==> b[i] == startTime + i * interval)
  }

  predicate Spaced(b: seq<int>, interval: int) {
    forall i :: 0 <= i < |b| - 1 ==> b[i + 1] == b[i] + interval
  }

  lemma {:induction false} SpacedAt(b: seq<int>, interval: int, i: nat)
    requires Spaced(b, interval) && i < |b|
    ensures b[i] == b[0] + i * interval
  {
    if i > 0 {
      SpacedAt(b, interval, i - 1);
      assert (i - 1) * interval + interval == i * interval;
    }
  }

  lemma SpacedEnds(b: seq<int>, startTime: int, endTime: int, interval: int)
    requires Spaced(b, interval) && |b| > 0 && 0 < interval
    requires b[0] == startTime && b[|b| - 1] < endTime <= b[|b| - 1] + interval
    ensures BucketEnds(b + [endTime], startTime, endTime, interval)
  {
    hide DivideUp;
    SpacedAt(b, interval, |b| - 1);
    assert (|b| - 1) * interval + interval == |b| * interval;
    CountSteps(endTime - startTime, interval, |b|);
    forall i | 0 <= i < |b|
      ensures b[i] == startTime + i * interval
    {
      SpacedAt(b, interval, i);
    }
  }

  lemma IntervalIsPositive(startTime: int, endTime: int, periodInterval: Option<int>)
    requires startTime < endTime && (periodInterval.Some? ==> 0 < periodInterval.value)
    ensures 0 < IntervalOf(startTime, endTime, periodInterval)
  {
  }

  /** Bucket ends from the start time up to, and always including, the end time. Bad arguments are refused. */
  method BucketRangeByInterval(startTime: int, endTime: int,
      periodInterval: Option<int>) returns (buckets: Result<seq<int>>)
    ensures buckets.Err? <==>
        startTime < 0 || endTime < startTime || (periodInterval.Some? && periodInterval.value <= 0)
    ensures buckets.Ok? && startTime < endTime ==> 0 < IntervalOf(startTime, endTime, periodInterval)
    ensures buckets.Ok? ==>
        BucketEnds(buckets.value, startTime, endTime, IntervalOf(startTime, endTime, periodInterval))
  {
    hide IntervalOf;
    if startTime < 0 { return Err("startTime must be a valid unix timestamp"); }
    if endTime < 0 { return Err("endTime must be a valid unix timestamp"); }
    if endTime < startTime { return Err("endTime must be greater than or equal startTime"); }
    if periodInterval.Some? && periodInterval.value <= 0 { return Err("periodInterval must be positive"); }
    var interval := IntervalOf(startTime, endTime, periodInterval);
    if startTime < endTime { IntervalIsPositive(startTime, endTime, periodInterval); }
    var b: seq<int> := [];
    var bucketEndTime := startTime;
    while bucketEndTime < endTime
      invariant |b| == 0 ==> bucketEndTime == startTime
      invariant |b| > 0 ==>
          b[0] == startTime < endTime && bucketEndTime == b[|b| - 1] + interval && b[|b| - 1] < endTime
      invariant Spaced(b, interval)
      decreases endTime - bucketEndTime
    {
      b := b + [bucketEndTime];
      bucketEndTime := bucketEndTime + interval;
    }
    if startTime < endTime { SpacedEnds(b, startTime, endTime, interval); }
    buckets := Ok(b + [endTime]);
  }

  lemma ScaleMono(a: int, b: int, c: int)
    ensures a <= b && 0 <= c ==> a * c <= b * c
  {
  }

  /** The number of whole or started intervals in a span. */
  lemma CountSteps(span: int, interval: int, n: nat)
    requires 0 < span && 0 < interval && 0 < n && (n - 1) * interval < span <= n * interval
    ensures DivideUp(span, interval) == n
  {
    var q := DivideUp(span, interval);
    assert q * interval <= span + interval - 1 < q * interval + interval;
    ScaleMono(q + 1, n, interval);
    ScaleMono(q, n - 1, interval);
    ScaleMono(n + 1, q, interval);
  }

  /** A given interval is the one used; by default it is the least number of whole seconds that covers the span in
      thirty steps. */
  lemma IntervalInFigures(startTime: int, endTime: int, periodInterval: Option<int>)
    requires startTime <= endTime
    ensures var interval := IntervalOf(startTime, endTime, periodInterval);
      match periodInterval
      case Some(given) => interval == given
      case None => 30 * (interval - 1) < endTime - startTime <= 30 * interval
  {
  }

  /** So by default a span of whole thirty-seconds has exactly thirty-one buckets; and any span has as many as the least
      number of default intervals that covers it, and one. */
  lemma DefaultBuckets(startTime: int, endTime: int)
    requires startTime < endTime
    ensures var interval, span := IntervalOf(startTime, endTime, None), endTime - startTime;
      var steps := DivideUp(span, interval);
      && (steps - 1) * interval < span <= steps * interval
      && (span % 30 == 0 ==> steps == 30 && interval == span / 30)
  {
    var interval, span := IntervalOf(startTime, endTime, None), endTime - startTime;
    StepsCover(span, interval);
    if span % 30 == 0 {
      assert interval == span / 30 && span == 30 * interval;
      assert 29 * interval < span;
      CountSteps(span, interval, 30);
    }
  }

  lemma StepsCover(span: int, interval: int)
    requires 0 < span && 0 < interval
    ensures (DivideUp(span, interval) - 1) * interval < span <= DivideUp(span, interval) * interval
  {
    var q := DivideUp(span, interval);
    assert q * interval <= span + interval - 1 < q * interval + interval;
    assert (q - 1) * interval == q * interval - interval;
  }

  /** By default there are at most thirty-one buckets. */
  lemma DefaultBucketCount(startTime: int, endTime: int)
    requires startTime < endTime
    ensures DivideUp(endTime - startTime, IntervalOf(startTime, endTime, None)) + 1 <= DEFAULT_NUMBER_OF_BUCKETS + 1
  {
    var span, interval := endTime - startTime, IntervalOf(startTime, endTime, None);
    assert span <= 30 * interval;
    var q := DivideUp(span, interval);
    assert q * interval <= span + interval - 1;
    ScaleMono(31, q, interval);
  }

  // ---------------------------------------------------------------- rows at bucket ends

  /** A timeseries row; its timestamp is overwritten in place. */
  class Row {
    var timestamp: int
    const outcome: nat
    const payload: int

    constructor (timestamp: int, outcome: nat, payload: int)
      ensures this.timestamp == timestamp && this.outcome == outcome && this.payload == payload
    {
      this.timestamp, this.outcome, this.payload := timestamp, outcome, payload;
    }
  }

  /** The rows of one outcome. */
  datatype Series = Series(outcome: nat, values: seq<Row>)

  /** The row used where an outcome has none yet. Its own outcome number wins over the series' one. */
  datatype DefaultRow = DefaultRow(outcome: nat, payload: int)

  function Stamps(values: seq<Row>): (stamps: seq<int>)
    reads values
    ensures |stamps| == |values|
  {
    seq(|values|, i requires 0 <= i < |values| reads values => values[i].timestamp)
  }

  /** How many leading rows are at or before `t`. */
  function TakeCount(stamps: seq<int>, t: int): (n: nat)
    ensures n <= |stamps|
  {
    if stamps == [] || stamps[0] > t then 0 else 1 + TakeCount(stamps[1..], t)
  }

  /** Timestamps after one bucket has picked its row and stamped it. */
  function StampOne(stamps: seq<int>, t: int): (r: seq<int>)
    ensures |r| == |stamps|
  {
    var n := TakeCount(stamps, t);
    if n == 0 then stamps else stamps[n - 1 := t]
  }

  function StampAll(stamps: seq<int>, buckets: seq<int>): (r: seq<int>)
    ensures |r| == |stamps|
  {
    if buckets == [] then stamps
    else StampOne(StampAll(stamps, buckets[..|buckets| - 1]), buckets[|buckets| - 1])
  }

  ghost predicate Distinct(rows: seq<Row>) {
    forall i, j :: 0 <= i < j < |rows| ==> rows[i] != rows[j]
  }

  /** No row object occurs twice, within a series or in two of them. */
  ghost predicate Separate(series: seq<Series>) {
    && (forall s :: 0 <= s < |series| ==> Distinct(series[s].values))
    && (forall s, u, r :: 0 <= s < u < |series| && r in series[s].values ==> r !in series[u].values)
  }

  ghost function RowsOf(series: seq<Series>): set<Row> {
    set s, r | 0 <= s < |series| && r in series[s].values :: r
  }

  lemma OwnRowsAreRows(series: seq<Series>, s: nat)
    requires s < |series|
    ensures forall i :: 0 <= i < |series[s].values| ==> series[s].values[i] in RowsOf(series)
  {
    forall i | 0 <= i < |series[s].values|
      ensures series[s].values[i] in RowsOf(series)
    {
      var r := series[s].values[i];
      assert 0 <= s < |series| && r in series[s].values;
    }
  }

  /** The last leading row at or before the bucket, stamped with the bucket; or a new default row. */
  method PickAt(values: seq<Row>, bucket: int, defaultValue: DefaultRow) returns (result: Row)
    requires Distinct(values)
    modifies values
    ensures Stamps(values) == StampOne(old(Stamps(values)), bucket)
    ensures result.timestamp == bucket
    ensures var n := TakeCount(old(Stamps(values)), bucket);
      if n > 0 then result == values[n - 1]
      else fresh(result) && result.outcome == defaultValue.outcome && result.payload == defaultValue.payload
  {
    var beforeBucket := values[..TakeCount(Stamps(values), bucket)];
    if |beforeBucket| > 0 {
      result := beforeBucket[|beforeBucket| - 1];
    } else {
      result := new Row(0, defaultValue.outcome, defaultValue.payload);
    }
    result.timestamp := bucket;
  }

  /** `row` is what a series with these timestamps shows at a bucket: the row it picks, or a stamped default row that
      is none of `rows`. */
  ghost predicate Shows(row: Row, timestamp: int, values: seq<Row>, stamps: seq<int>, bucket: int,
      defaultValue: DefaultRow, rows: set<Row>)
    requires |values| == |stamps|
  {
    var n := TakeCount(stamps, bucket);
    if n > 0 then row == values[n - 1]
    else
      && row !in rows && timestamp == bucket
      && row.outcome == defaultValue.outcome && row.payload == defaultValue.payload
  }

  /** What is shown does not depend on the timestamp of a picked row. */
  lemma StillShows(row: Row, before: int, after: int, values: seq<Row>, stamps: seq<int>, bucket: int,
      defaultValue: DefaultRow, rows: set<Row>)
    requires |values| == |stamps| && Shows(row, before, values, stamps, bucket, defaultValue, rows)
    requires row !in rows ==> after == before
    ensures Shows(row, after, values, stamps, bucket, defaultValue, rows)
  {
  }

  /** The timestamps of every series. */
  ghost function StampsOf(series: seq<Series>): (stamps: seq<seq<int>>)
    reads RowsOf(series)
    ensures |stamps| == |series| && forall s :: 0 <= s < |series| ==> stamps[s] == Stamps(series[s].values)
  {
    forall s | 0 <= s < |series|
      ensures forall r <- series[s].values :: r in RowsOf(series)
    {
      OwnRowsAreRows(series, s);
    }
    seq(|series|, s requires 0 <= s < |series| reads RowsOf(series) => Stamps(series[s].values))
  }

  /** One row for every series at one bucket, by the series' timestamps before it. */
  ghost predicate BucketShown(result: seq<Row>, series: seq<Series>, stamps: seq<seq<int>>, bucket: int,
      defaultValue: DefaultRow)
    requires |stamps| == |series| && forall s :: 0 <= s < |series| ==> |stamps[s]| == |series[s].values|
    reads result
  {
    && |result| == |series|
    && forall s :: 0 <= s < |series| ==>
        Shows(result[s], result[s].timestamp, series[s].values, stamps[s], bucket, defaultValue, RowsOf(series))
  }

  /** Timestamps of every series after the given buckets. */
  function StampsAfter(stamps: seq<seq<int>>, buckets: seq<int>): (r: seq<seq<int>>)
    ensures |r| == |stamps| && forall s :: 0 <= s < |stamps| ==> |r[s]| == |stamps[s]|
  {
    seq(|stamps|, s requires 0 <= s < |stamps| => StampAll(stamps[s], buckets))
  }

  lemma StampsNext(stamps: seq<seq<int>>, buckets: seq<int>, b: nat, now: seq<seq<int>>)
    requires b < |buckets| && |now| == |stamps|
    requires forall s :: 0 <= s < |stamps| ==> now[s] == StampOne(StampsAfter(stamps, buckets[..b])[s], buckets[b])
    ensures now == StampsAfter(stamps, buckets[..b + 1])
  {
    assert buckets[..b + 1][..b] == buckets[..b];
  }

  lemma StampsStart(stamps: seq<seq<int>>)
    ensures StampsAfter(stamps, []) == stamps
  {
  }

  /** The row a series gives at a bucket is what it shows there. */
  lemma PickedIsShown(row: Row, values: seq<Row>, stamps: seq<int>, bucket: int, defaultValue: DefaultRow,
      rows: set<Row>)
    requires |values| == |stamps|
    requires var n := TakeCount(stamps, bucket);
      if n > 0 then row == values[n - 1]
      else row !in rows && row.outcome == defaultValue.outcome && row.payload == defaultValue.payload
    ensures Shows(row, bucket, values, stamps, bucket, defaultValue, rows)
  {
  }

  lemma RowsExist(series: seq<Series>)
    ensures forall r <- RowsOf(series) :: allocated(r)
  {
  }

  lemma OwnRowsDiffer(series: seq<Series>, s: nat)
    requires Separate(series) && s < |series|
    ensures Distinct(series[s].values)
  {
  }

  /** Different series have no row in common. */
  lemma Apart(series: seq<Series>, s: nat, u: nat)
    requires Separate(series) && s < |series| && u < |series| && s != u
    ensures forall i :: 0 <= i < |series[u].values| ==> series[u].values[i] !in series[s].values
  {
  }

  /** One row for every series at one bucket. */
  method RowsAt(series: seq<Series>, bucket: int, defaultValue: DefaultRow) returns (result: seq<Row>)
    requires Separate(series)
    modifies RowsOf(series)
    ensures forall s :: 0 <= s < |series| ==> StampsOf(series)[s] == StampOne(old(StampsOf(series))[s], bucket)
    ensures BucketShown(result, series, old(StampsOf(series)), bucket, defaultValue)
  {
    hide StampOne, TakeCount, Stamps, StampsOf, Shows, RowsOf, Distinct, Separate;
    ghost var was, rows := StampsOf(series), RowsOf(series);
    RowsExist(series);
    result := [];
    var s := 0;
    while s < |series|
      invariant 0 <= s <= |series| && |result| == s
      invariant forall u :: 0 <= u < s ==> Stamps(series[u].values) == StampOne(was[u], bucket)
      invariant forall u :: s <= u < |series| ==> Stamps(series[u].values) == was[u]
      invariant forall u ::
          0 <= u < s ==> Shows(result[u], result[u].timestamp, series[u].values, was[u], bucket, defaultValue, rows)
    {
      OwnRowsAreRows(series, s);
      OwnRowsDiffer(series, s);
      label Before:
      var row := PickAt(series[s].values, bucket, defaultValue);
      forall u | 0 <= u < |series| && u != s
        ensures Stamps(series[u].values) == old@Before(Stamps(series[u].values))
      {
        Apart(series, s, u);
      }
      forall u | 0 <= u < s
        ensures Shows(result[u], result[u].timestamp, series[u].values, was[u], bucket, defaultValue, rows)
      {
        StillShows(result[u], old@Before(result[u].timestamp), result[u].timestamp, series[u].values, was[u], bucket,
            defaultValue, rows);
      }
      PickedIsShown(row, series[s].values, was[s], bucket, defaultValue, rows);
      result := result + [row];
      s := s + 1;
    }
  }

  /** The rows of every series at every bucket. A row picked at several buckets is one object, stamped anew each
      time. */
  method BucketAtTimestamps(series: seq<Series>, buckets: seq<int>,
      defaultValue: DefaultRow) returns (result: seq<seq<Row>>)
    requires Separate(series)
    modifies RowsOf(series)
    ensures |result| == |buckets|
    ensures StampsOf(series) == StampsAfter(old(StampsOf(series)), buckets)
    ensures forall b :: 0 <= b < |buckets| ==>
      BucketShown(result[b], series, StampsAfter(old(StampsOf(series)), buckets[..b]), buckets[b], defaultValue)
  {
    hide StampOne, StampsOf, StampsAfter, Shows, Separate, RowsOf;
    ghost var was := StampsOf(series);
    StampsStart(was);
    result := [];
    var b := 0;
    while b < |buckets|
      invariant 0 <= b <= |buckets| && |result| == b
      invariant StampsOf(series) == StampsAfter(was, buckets[..b])
      invariant forall c ::
          0 <= c < b ==> BucketShown(result[c], series, StampsAfter(was, buckets[..c]), buckets[c], defaultValue)
    {
      label Before:
      var rows := RowsAt(series, buckets[b], defaultValue);
      StampsNext(was, buckets, b, StampsOf(series));
      forall c | 0 <= c < b
        ensures BucketShown(result[c], series, StampsAfter(was, buckets[..c]), buckets[c], defaultValue)
      {
        forall s | 0 <= s < |series|
          ensures Shows(result[c][s], result[c][s].timestamp, series[s].values, StampsAfter(was, buckets[..c])[s],
              buckets[c], defaultValue, RowsOf(series))
        {
          StillShows(result[c][s], old@Before(result[c][s].timestamp), result[c][s].timestamp,
                     series[s].values, StampsAfter(was, buckets[..c])[s], buckets[c], defaultValue, RowsOf(series));
        }
      }
      result := result + [rows];
      b := b + 1;
    }
    assert buckets[..b] == buckets;
  }

  // ---------------------------------------------------------------- what the overwriting leaves

  predicate Ascending(xs: seq<int>) {
    forall i, j :: 0 <= i < j < |xs| ==> xs[i] <= xs[j]
  }

  predicate StrictlyAscending(xs: seq<int>) {
    forall i, j :: 0 <= i < j < |xs| ==> xs[i] < xs[j]
  }

  /** Leading rows at or before `t`; on ascending timestamps, exactly the rows at or before it. */
  lemma {:induction false} TakeCountSplits(stamps: seq<int>, t: int)
    ensures var n := TakeCount(stamps, t);
      && (forall i :: 0 <= i < n ==> stamps[i] <= t)
      && (n < |stamps| ==> t < stamps[n])
      && (Ascending(stamps) ==> forall i :: n <= i < |stamps| ==> t < stamps[i])
  {
    if stamps != [] && stamps[0] <= t {
      TakeCountSplits(stamps[1..], t);
      assert Ascending(stamps) ==> Ascending(stamps[1..]);
      assert forall i :: 1 <= i < |stamps| ==> stamps[i] == stamps[1..][i - 1];
    }
  }

  /** Two timestamp lists on the same side of `t`, row by row, give the same count. */
  lemma {:induction false} SameSideSameCount(a: seq<int>, b: seq<int>, t: int)
    requires |a| == |b| && forall i :: 0 <= i < |a| ==> (a[i] <= t <==> b[i] <= t)
    ensures TakeCount(a, t) == TakeCount(b, t)
  {
    if a != [] {
      SameSideSameCount(a[1..], b[1..], t);
    }
  }

  /** Overwriting only moves a timestamp forward, at most to a bucket already passed. */
  lemma {:induction false} StampsMoveForward(stamps: seq<int>, buckets: seq<int>, limit: int)
    requires forall i :: 0 <= i < |buckets| ==> buckets[i] <= limit
    ensures var after := StampAll(stamps, buckets);
      forall i :: 0 <= i < |stamps| ==> stamps[i] <= after[i] && (after[i] == stamps[i] || after[i] <= limit)
  {
    if buckets != [] {
      var before := StampAll(stamps, buckets[..|buckets| - 1]);
      StampsMoveForward(stamps, buckets[..|buckets| - 1], limit);
      TakeCountSplits(before, buckets[|buckets| - 1]);
    }
  }

  /** Although rows are stamped as they are picked, each bucket counts rows by their original timestamps. */
  lemma CountIsOriginal(stamps: seq<int>, buckets: seq<int>, b: nat)
    requires b < |buckets| && Ascending(buckets)
    ensures TakeCount(StampAll(stamps, buckets[..b]), buckets[b]) == TakeCount(stamps, buckets[b])
  {
    StampsMoveForward(stamps, buckets[..b], buckets[b]);
    SameSideSameCount(StampAll(stamps, buckets[..b]), stamps, buckets[b]);
  }

  /** `row` stands for a series at a bucket: its last row at or before the bucket by the timestamps given, or the
      default row if every row is later. */
  ghost predicate LastAtOrBefore(row: Row, values: seq<Row>, stamps: seq<int>, bucket: int,
      defaultValue: DefaultRow, rows: set<Row>)
    requires |values| == |stamps|
  {
    || (exists k :: 0 <= k < |values| && row == values[k] && stamps[k] <= bucket
                    && forall i :: k < i < |stamps| ==> bucket < stamps[i])
    || (&& (forall i :: 0 <= i < |stamps| ==> bucket < stamps[i])
        && row !in rows && row.outcome == defaultValue.outcome && row.payload == defaultValue.payload)
  }

  /** Every bucket shows, for every series, the last row whose original timestamp is at or before it. */
  lemma BucketsShowLastRows(result: seq<Row>, series: seq<Series>, was: seq<seq<int>>, buckets: seq<int>, b: nat,
      s: nat, defaultValue: DefaultRow)
    requires |was| == |series| && forall u :: 0 <= u < |series| ==> |was[u]| == |series[u].values|
    requires b < |buckets| && s < |series| && Ascending(buckets) && Ascending(was[s])
    requires BucketShown(result, series, StampsAfter(was, buckets[..b]), buckets[b], defaultValue)
    ensures LastAtOrBefore(result[s], series[s].values, was[s], buckets[b], defaultValue, RowsOf(series))
  {
    hide RowsOf, StampAll;
    CountIsOriginal(was[s], buckets, b);
    TakeCountSplits(was[s], buckets[b]);
    var n := TakeCount(was[s], buckets[b]);
    assert Shows(result[s], result[s].timestamp, series[s].values, StampsAfter(was, buckets[..b])[s], buckets[b],
        defaultValue, RowsOf(series));
    if n > 0 {
      assert result[s] == series[s].values[n - 1] && was[s][n - 1] <= buckets[b];
    }
  }

  /** A row shown for a series has the series' outcome exactly when the series has a row at or before the bucket, or the
      default row happens to have that outcome: the default row's own outcome wins over the series' one. */
  lemma ShownOutcomeIsSeriesOutcome(result: seq<Row>, series: seq<Series>, was: seq<seq<int>>, buckets: seq<int>,
      b: nat, s: nat, defaultValue: DefaultRow)
    requires |was| == |series| && forall u :: 0 <= u < |series| ==> |was[u]| == |series[u].values|
    requires b < |buckets| && s < |series| && Ascending(buckets) && Ascending(was[s])
    requires BucketShown(result, series, StampsAfter(was, buckets[..b]), buckets[b], defaultValue)
    requires forall r <- series[s].values :: r.outcome == series[s].outcome
    ensures result[s].outcome == series[s].outcome <==>
      (exists i :: 0 <= i < |was[s]| && was[s][i] <= buckets[b]) || defaultValue.outcome == series[s].outcome
  {
    hide RowsOf, StampAll;
    BucketsShowLastRows(result, series, was, buckets, b, s, defaultValue);
  }

  /** Outcome one, not traded before the bucket, is shown by a row of outcome zero. */
  method LaterOutcomeShowsDefault(row: Row, bucket: int) returns (result: seq<seq<Row>>)
    requires bucket < row.timestamp && row.outcome == 1
    modifies row
    ensures |result| == 1 == |result[0]| && result[0][0] != row && result[0][0].outcome == 0
    ensures row.timestamp == old(row.timestamp)
  {
    hide TakeCount, StampAll, StampOne, StampsAfter, Stamps, StampsOf, Shows, BucketShown, Separate, RowsOf;
    var series, defaultValue := [Series(1, [row])], DefaultRow(0, 0);
    ghost var stamp := row.timestamp;
    OnlyRow(series, row);
    result := BucketAtTimestamps(series, [bucket], defaultValue);
    OnlyRow(series, row);
    NoStamp(stamp, bucket);
    assert [bucket][..0] == [];
    DefaultShown(result[0], series, [[stamp]], bucket, defaultValue);
    assert [[row.timestamp]][0][0] == [[stamp]][0][0];
  }

  lemma NoStamp(stamp: int, bucket: int)
    requires bucket < stamp
    ensures TakeCount([stamp], bucket) == 0
    ensures StampsAfter([[stamp]], []) == [[stamp]] == StampsAfter([[stamp]], [bucket])
  {
    assert [bucket][..0] == [];
    assert StampAll([stamp], []) == [stamp] == StampAll([stamp], [bucket]);
  }

  lemma DefaultShown(result: seq<Row>, series: seq<Series>, stamps: seq<seq<int>>, bucket: int,
      defaultValue: DefaultRow)
    requires |series| == |stamps| == 1 && |series[0].values| == |stamps[0]| == 1
    requires BucketShown(result, series, stamps, bucket, defaultValue) && TakeCount(stamps[0], bucket) == 0
    ensures |result| == 1 && result[0] !in RowsOf(series) && result[0].outcome == defaultValue.outcome
  {
    assert Shows(result[0], result[0].timestamp, series[0].values, stamps[0], bucket, defaultValue, RowsOf(series));
  }

  /** A later bucket counts further exactly when the next row is at or before it. */
  lemma {:induction false} CountGrows(stamps: seq<int>, t: int, u: int)
    requires t <= u
    ensures var n := TakeCount(stamps, t);
      n <= TakeCount(stamps, u) && (n < TakeCount(stamps, u) <==> n < |stamps| && stamps[n] <= u)
  {
    if stamps != [] && stamps[0] <= t {
      CountGrows(stamps[1..], t, u);
    }
  }

  /** A row picked at a bucket ends up stamped with that bucket exactly when it is the last bucket or a further row
      falls at or before the next one; otherwise the same row object is stamped again later. */
  lemma {:induction false} StampIsKept(stamps: seq<int>, buckets: seq<int>, b: nat)
    requires StrictlyAscending(buckets) && b < |buckets| && TakeCount(stamps, buckets[b]) > 0
    ensures var n := TakeCount(stamps, buckets[b]);
      StampAll(stamps, buckets)[n - 1] == buckets[b] <==>
          b == |buckets| - 1 || (n < |stamps| && stamps[n] <= buckets[b + 1])
  {
    var m := |buckets| - 1;
    CountIsOriginal(stamps, buckets, m);
    if b < m {
      StampIsKept(stamps, buckets[..m], b);
      CountGrows(stamps, buckets[b], buckets[b + 1]);
      CountGrows(stamps, buckets[b + 1], buckets[m]);
    }
  }

  /** One row before two buckets is shown at both, the same object, and so carries the second timestamp at the first. */
  method OneRowTwoBuckets(row: Row, first: int, second: int, defaultValue: DefaultRow) returns (result: seq<seq<Row>>)
    requires row.timestamp <= first < second
    modifies row
    ensures result == [[row], [row]] && result[0][0].timestamp == second != first
  {
    hide TakeCount, StampAll, StampOne, StampsAfter, Stamps, StampsOf, Shows, BucketShown, Separate, RowsOf;
    var series, buckets := [Series(row.outcome, [row])], [first, second];
    ghost var stamp := row.timestamp;
    OnlyRow(series, row);
    result := BucketAtTimestamps(series, buckets, defaultValue);
    OnlyRow(series, row);
    TwoStamps(stamp, first, second);
    assert buckets[..0] == [] && buckets[..1] == [first];
    OneShown(result[0], series, [[stamp]], first, defaultValue);
    OneShown(result[1], series, [[first]], second, defaultValue);
    assert result == [[row], [row]];
    assert [[row.timestamp]][0][0] == [[second]][0][0];
  }

  lemma OneShown(result: seq<Row>, series: seq<Series>, stamps: seq<seq<int>>, bucket: int, defaultValue: DefaultRow)
    requires |series| == |stamps| == 1 && |series[0].values| == |stamps[0]| == 1
    requires BucketShown(result, series, stamps, bucket, defaultValue) && TakeCount(stamps[0], bucket) == 1
    ensures result == [series[0].values[0]]
  {
    assert Shows(result[0], result[0].timestamp, series[0].values, stamps[0], bucket, defaultValue, RowsOf(series));
  }

  lemma OnlyRow(series: seq<Series>, row: Row)
    requires |series| == 1 && series[0].values == [row]
    ensures RowsOf(series) == {row} && Separate(series) && StampsOf(series) == [[row.timestamp]]
  {
    assert row in series[0].values;
    assert Stamps(series[0].values) == [row.timestamp];
  }

  lemma TwoStamps(stamp: int, first: int, second: int)
    requires stamp <= first < second
    ensures TakeCount([stamp], first) == 1 == TakeCount([first], second)
    ensures StampsAfter([[stamp]], []) == [[stamp]] && StampsAfter([[stamp]], [first]) == [[first]]
    ensures StampsAfter([[stamp]], [first, second]) == [[second]]
  {
    assert TakeCount([stamp], first) == 1 + TakeCount([], first);
    assert TakeCount([first], second) == 1 + TakeCount([], second);
    assert [first][..0] == [] && [first, second][..1] == [first];
    assert StampAll([stamp], []) == [stamp] && StampAll([stamp], [first]) == [first];
    assert StampAll([stamp], [first, second]) == [second];
  }
}
