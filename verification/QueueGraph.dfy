/**
  What the queue series means (frontend/app/page.tsx): looking it up at any time gives the direct sum over
  the packets, the area under the drawn line is bytes times time queued, and sampling for display keeps an
  evenly thinned window.
*/
module QueueGraph {
  import opened Arith
  import opened Csv
  import opened QueueSeries

  // ---------- lookup ----------

  /** The last snapshot at or before `time`; the first one when all are later. */
  ghost predicate IsLastAtOrBefore(ss: seq<Snapshot>, time: real, i: nat) {
    && i < |ss|
    && (forall j :: i < j < |ss| ==> ss[j].time > time)
    && (i > 0 ==> ss[i].time <= time)
  }

  ghost predicate TimesInOrder(ss: seq<Snapshot>) {
    forall i, j :: 0 <= i < j < |ss| ==> ss[i].time <= ss[j].time
  }

  method FindLastSnapshotAtOrBeforeTime(snapshots: seq<Snapshot>, time: real) returns (r: Option<Snapshot>, ghost i: nat)
    ensures r.None? <==> snapshots == []
    ensures r.Some? && TimesInOrder(snapshots) ==> IsLastAtOrBefore(snapshots, time, i) && r.value == snapshots[i]
  {
    var lo, hi := 0, |snapshots|;
    while lo < hi
      invariant 0 <= lo <= hi <= |snapshots|
      invariant TimesInOrder(snapshots) ==> forall j :: 0 <= j < lo ==> snapshots[j].time <= time
      invariant TimesInOrder(snapshots) ==> forall j :: hi <= j < |snapshots| ==> snapshots[j].time > time
    {
      var mid := (lo + hi) / 2;
      if snapshots[mid].time <= time {
        lo := mid + 1;
      } else {
        hi := mid;
      }
    }
    i := if lo > 0 then lo - 1 else 0;
    var at := if lo > 0 then lo - 1 else 0;
    r := if at < |snapshots| then Some(snapshots[at]) else None;
  }

  // ---------- the series is the direct sum ----------

  lemma {:induction false} ChangeIsQueued(pkts: seq<PacketRow>, t: real, count: bool)
    requires WellTimed(pkts)
    ensures Change(pkts, UpTo(t), count) == Queued(pkts, t, count) >= 0
    decreases |pkts|
  {
    if pkts != [] { ChangeIsQueued(pkts[..|pkts| - 1], t, count); }
  }

  /** No packet enters or leaves strictly between `a` and `b`. */
  ghost predicate Quiet(pkts: seq<PacketRow>, a: real, b: real) {
    forall i :: 0 <= i < |pkts| ==> !(a < pkts[i].enqueueTime < b) && !(a < pkts[i].dequeueTime < b)
  }

  /** Every packet enters and leaves at `b` or later. */
  ghost predicate AllFrom(pkts: seq<PacketRow>, b: real) {
    forall i :: 0 <= i < |pkts| ==> pkts[i].enqueueTime >= b && pkts[i].dequeueTime >= b
  }

  /** Between two times without events in between, only the events of the later time count. */
  lemma {:induction false} ChangeOverGap(pkts: seq<PacketRow>, a: real, b: real, count: bool)
    requires a < b && Quiet(pkts, a, b)
    ensures Change(pkts, UpTo(b), count) == Change(pkts, UpTo(a), count) + Change(pkts, At(b), count)
    decreases |pkts|
  {
    if pkts != [] { ChangeOverGap(pkts[..|pkts| - 1], a, b, count); }
  }

  /** Up to the first event time, only the events of that time count. */
  lemma {:induction false} ChangeAtStart(pkts: seq<PacketRow>, b: real, count: bool)
    requires AllFrom(pkts, b)
    ensures Change(pkts, UpTo(b), count) == Change(pkts, At(b), count)
    decreases |pkts|
  {
    if pkts != [] { ChangeAtStart(pkts[..|pkts| - 1], b, count); }
  }

  lemma {:induction false} NoChangeAt(pkts: seq<PacketRow>, t: real, count: bool)
    requires !IsEventTime(pkts, t)
    ensures Change(pkts, At(t), count) == 0
    decreases |pkts|
  {
    if pkts != [] {
      var (front, p) := (pkts[..|pkts| - 1], pkts[|pkts| - 1]);
      assert p in pkts && !HasTime(p, t);
      assert forall q :: q in front ==> q in pkts;
      NoChangeAt(front, t, count);
    }
  }

  /** No event time lies strictly between two neighbouring snapshots, nor before the first one. */
  lemma NoEventBetween(pkts: seq<PacketRow>, maxTime: real, ss: seq<Snapshot>, i: nat, t: real)
    requires IsSeries(pkts, maxTime, ss) && i < |ss| && t <= maxTime
    requires i > 0 ==> ss[i].time < t
    requires i + 1 < |ss| ==> t < ss[i + 1].time
    ensures !IsEventTime(pkts, t)
  {
  }

  lemma QuietAfter(pkts: seq<PacketRow>, maxTime: real, ss: seq<Snapshot>, i: nat, a: real, b: real)
    requires IsSeries(pkts, maxTime, ss) && i < |ss| && b <= maxTime
    requires i > 0 ==> ss[i].time <= a
    requires i + 1 < |ss| ==> b <= ss[i + 1].time
    ensures Quiet(pkts, a, b)
    ensures i == 0 ==> AllFrom(pkts, b)
  {
    hide IsSeries;
    forall k, t | 0 <= k < |pkts| && HasTime(pkts[k], t) && t < b && (i > 0 ==> a < t)
      ensures false
    {
      assert pkts[k] in pkts;
      NoEventBetween(pkts, maxTime, ss, i, t);
    }
    assert forall k :: 0 <= k < |pkts| ==> HasTime(pkts[k], pkts[k].enqueueTime) && HasTime(pkts[k], pkts[k].dequeueTime);
  }

  /** Each snapshot holds the direct sum at its time; the clamps at 0 change nothing. */
  lemma {:induction false} SnapshotIsQueued(pkts: seq<PacketRow>, maxTime: real, ss: seq<Snapshot>, i: nat, count: bool)
    requires WellTimed(pkts) && IsSeries(pkts, maxTime, ss) && 1 <= i < |ss|
    ensures Value(ss[i], count) == Change(pkts, UpTo(ss[i].time), count) == Queued(pkts, ss[i].time, count)
    ensures Value(ss[i], count) == Value(ss[i - 1], count) + Change(pkts, At(ss[i].time), count)
    decreases i
  {
    hide IsSeries;
    SeriesFacts(pkts, maxTime, ss, i, count);
    ChangeIsQueued(pkts, ss[i].time, count);
    if i == 1 {
      QuietAfter(pkts, maxTime, ss, 0, 0.0, ss[1].time);
      ChangeAtStart(pkts, ss[1].time, count);
    } else {
      SnapshotIsQueued(pkts, maxTime, ss, i - 1, count);
      QuietAfter(pkts, maxTime, ss, i - 1, ss[i - 1].time, ss[i].time);
      ChangeOverGap(pkts, ss[i - 1].time, ss[i].time, count);
    }
  }

  lemma SeriesFacts(pkts: seq<PacketRow>, maxTime: real, ss: seq<Snapshot>, i: nat, count: bool)
    requires IsSeries(pkts, maxTime, ss) && 1 <= i < |ss|
    ensures ss[i].time <= maxTime && (i > 1 ==> ss[i - 1].time < ss[i].time) && ss[0] == Snapshot(0.0, 0, 0)
    ensures Value(ss[i], count) == Clamp(Value(ss[i - 1], count) + Change(pkts, At(ss[i].time), count))
  {
  }

  /** Snapshot `i` holds from its time until the next one. */
  lemma HoldsUntilNext(pkts: seq<PacketRow>, maxTime: real, ss: seq<Snapshot>, i: nat, t: real, count: bool)
    requires WellTimed(pkts) && IsSeries(pkts, maxTime, ss) && IsLastAtOrBefore(ss, t, i) && t <= maxTime
    ensures Value(ss[i], count) == Change(pkts, UpTo(t), count) == Queued(pkts, t, count)
  {
    ChangeIsQueued(pkts, t, count);
    if i == 0 {
      QuietAfter(pkts, maxTime, ss, 0, t, t);
      NoEventBetween(pkts, maxTime, ss, 0, t);
      ChangeAtStart(pkts, t, count);
      NoChangeAt(pkts, t, count);
      SeriesStart(pkts, maxTime, ss);
    } else {
      SnapshotIsQueued(pkts, maxTime, ss, i, count);
      if ss[i].time < t {
        NoEventBetween(pkts, maxTime, ss, i, t);
        QuietAfter(pkts, maxTime, ss, i, ss[i].time, t);
        ChangeOverGap(pkts, ss[i].time, t, count);
        NoChangeAt(pkts, t, count);
      }
    }
  }

  lemma SeriesInOrder(pkts: seq<PacketRow>, maxTime: real, ss: seq<Snapshot>)
    requires WellTimed(pkts) && IsSeries(pkts, maxTime, ss)
    ensures TimesInOrder(ss)
  {
  }

  /** The queue of a link at time `t`, as the browser shows it: build the series, look it up; and the time in
      which the link sends what waits. */
  method QueueAt(pkts: seq<PacketRow>, maxTime: real, linkRateBps: real, t: real) returns (now: Snapshot, delay: real)
    requires WellTimed(pkts) && 0.0 <= t <= maxTime
    ensures now.bytes == Queued(pkts, t, false) && now.packets == Queued(pkts, t, true)
    ensures IsSendingTime(delay, Queued(pkts, t, false), linkRateBps)
  {
    hide IsSeries, WellTimed, TimesInOrder;
    var series := BuildQueueSeries(pkts, maxTime, linkRateBps);
    SeriesInOrder(pkts, maxTime, series.snapshots);
    SeriesNotEmpty(pkts, maxTime, series.snapshots);
    var found, i := FindLastSnapshotAtOrBeforeTime(series.snapshots, t);
    HoldsUntilNext(pkts, maxTime, series.snapshots, i, t, false);
    HoldsUntilNext(pkts, maxTime, series.snapshots, i, t, true);
    now := found.value;
    delay := QueueingDelay(now.bytes, linkRateBps);
    QueueingDelayIsSendingTime(now.bytes, linkRateBps);
  }

  lemma SeriesNotEmpty(pkts: seq<PacketRow>, maxTime: real, ss: seq<Snapshot>)
    requires IsSeries(pkts, maxTime, ss)
    ensures |ss| >= 1
  {
  }

  /** When `maxTime` is at or after every dequeue, the series ends with an empty queue. */
  lemma SeriesEndsEmpty(pkts: seq<PacketRow>, maxTime: real, ss: seq<Snapshot>)
    requires WellTimed(pkts) && IsSeries(pkts, maxTime, ss)
    requires forall i :: 0 <= i < |pkts| ==> pkts[i].dequeueTime <= maxTime
    ensures ss[|ss| - 1].bytes == 0 && ss[|ss| - 1].packets == 0
  {
    var i: nat := |ss| - 1;
    HoldsUntilNext(pkts, maxTime, ss, i, maxTime, false);
    HoldsUntilNext(pkts, maxTime, ss, i, maxTime, true);
    NothingQueued(pkts, maxTime, false);
    NothingQueued(pkts, maxTime, true);
  }

  lemma {:induction false} NothingQueued(pkts: seq<PacketRow>, t: real, count: bool)
    requires forall i :: 0 <= i < |pkts| ==> pkts[i].dequeueTime <= t
    ensures Queued(pkts, t, count) == 0
    decreases |pkts|
  {
    if pkts != [] { NothingQueued(pkts[..|pkts| - 1], t, count); }
  }

  // ---------- the area under the line ----------

  /** The area between two neighbouring points. */
  function Segment(a: Point, b: Point): real {
    (b.time - a.time) * ((a.size + b.size) as real / 2.0)
  }

  /** The area under straight lines from point to point. */
  function Area(points: seq<Point>): real {
    if |points| < 2 then 0.0
    else Area(points[..|points| - 1]) + Segment(points[|points| - 2], points[|points| - 1])
  }

  function Earlier(a: real, b: real): real {
    if a < b then a else b
  }

  /** Size times the part of [0, t] that a packet spends in the queue. */
  function Wait(p: PacketRow, t: real): real {
    p.size as real * (Earlier(p.dequeueTime, t) - Earlier(p.enqueueTime, t))
  }

  /** The total over the packets. */
  function Waited(pkts: seq<PacketRow>, t: real): real {
    if pkts == [] then 0.0 else Waited(pkts[..|pkts| - 1], t) + Wait(pkts[|pkts| - 1], t)
  }

  /** While no event happens, waiting grows by the queue length times the time. */
  lemma {:induction false} WaitedOverGap(pkts: seq<PacketRow>, a: real, b: real)
    requires a <= b && Quiet(pkts, a, b)
    ensures Waited(pkts, b) == Waited(pkts, a) + Change(pkts, UpTo(a), false) as real * (b - a)
    decreases |pkts|
  {
    hide Wait, ChangeOf;
    if pkts != [] {
      var (front, p) := (pkts[..|pkts| - 1], pkts[|pkts| - 1]);
      WaitedOverGap(front, a, b);
      WaitOverGap(p, a, b);
      Distribute(Change(front, UpTo(a), false), ChangeOf(p, UpTo(a), false), b - a);
    }
  }

  lemma WaitOverGap(p: PacketRow, a: real, b: real)
    requires a <= b && !(a < p.enqueueTime < b) && !(a < p.dequeueTime < b)
    ensures Wait(p, b) == Wait(p, a) + ChangeOf(p, UpTo(a), false) as real * (b - a)
  {
  }

  lemma Distribute(a: int, b: int, d: real)
    ensures (a + b) as real * d == a as real * d + b as real * d
  {
  }

  lemma {:induction false} WaitedAtZero(pkts: seq<PacketRow>)
    requires WellTimed(pkts)
    ensures Waited(pkts, 0.0) == 0.0
    decreases |pkts|
  {
    if pkts != [] { WaitedAtZero(pkts[..|pkts| - 1]); }
  }

  lemma AreaOfOneMore(points: seq<Point>, a: Point)
    requires points != []
    ensures Area(points + [a]) == Area(points) + Segment(points[|points| - 1], a)
  {
  }

  /** A level stretch. */
  lemma LevelSegment(a: Point, b: Point)
    requires a.size == b.size
    ensures Segment(a, b) == (b.time - a.time) * a.size as real
  {
  }

  /** A vertical jump. */
  lemma JumpSegment(a: Point, b: Point)
    requires a.time == b.time
    ensures Segment(a, b) == 0.0
  {
  }

  /** Appending a level stretch and a vertical jump. */
  lemma AreaOfStep(points: seq<Point>, a: Point, b: Point)
    requires points != [] && a.size == points[|points| - 1].size && b.time == a.time
    ensures Area(points + [a]) == Area(points) + (a.time - points[|points| - 1].time) * a.size as real
    ensures Area(points + [a, b]) == Area(points + [a])
  {
    hide Segment, Area;
    AreaOfOneMore(points, a);
    AreaOfOneMore(points + [a], b);
    assert points + [a, b] == (points + [a]) + [b];
    LevelSegment(points[|points| - 1], a);
    JumpSegment(a, b);
  }

  lemma {:induction false} StairsArea(pkts: seq<PacketRow>, maxTime: real, ss: seq<Snapshot>, n: nat, linkRateBps: real)
    requires WellTimed(pkts) && IsSeries(pkts, maxTime, ss) && 1 <= n <= |ss|
    ensures var stairs := Stairs(ss[..n], linkRateBps);
      |stairs| > 0 && stairs[|stairs| - 1].size == ss[n - 1].bytes && stairs[|stairs| - 1].time == EndTime(ss[..n])
      && Area(stairs) == Waited(pkts, EndTime(ss[..n]))
    decreases n
  {
    hide IsSeries, WellTimed, Waited, Area, Segment;
    StairsEnd(ss[..n], linkRateBps);
    if n == 1 {
      SeriesStart(pkts, maxTime, ss);
      WaitedAtZero(pkts);
      AreaOfOne(Stairs(ss[..1], linkRateBps));
    } else {
      var before := ss[..n - 1];
      assert ss[..n][..n - 1] == before;
      StairsArea(pkts, maxTime, ss, n - 1, linkRateBps);
      var stairs := Stairs(before, linkRateBps);
      var (u, v) := (ss[n - 2], ss[n - 1]);
      var a := Point(v.time, u.bytes, QueueingDelay(u.bytes, linkRateBps));
      var b := Point(v.time, v.bytes, QueueingDelay(v.bytes, linkRateBps));
      AreaOfStep(stairs, a, b);
      assert Stairs(ss[..n], linkRateBps) == stairs + [a, b];
      Stretch(pkts, maxTime, ss, n - 1, v.time);
    }
  }

  lemma SeriesStart(pkts: seq<PacketRow>, maxTime: real, ss: seq<Snapshot>)
    requires IsSeries(pkts, maxTime, ss)
    ensures |ss| >= 1 && ss[0] == Snapshot(0.0, 0, 0)
  {
  }

  lemma AreaOfOne(points: seq<Point>)
    requires |points| == 1
    ensures Area(points) == 0.0
  {
  }

  lemma StretchEnds(pkts: seq<PacketRow>, maxTime: real, ss: seq<Snapshot>, n: nat, t: real)
    requires WellTimed(pkts) && IsSeries(pkts, maxTime, ss) && 1 <= n <= |ss|
    requires if n < |ss| then t == ss[n].time else t == maxTime && 0.0 <= maxTime
    ensures EndTime(ss[..n]) <= t <= maxTime
  {
  }

  lemma LevelInStretch(pkts: seq<PacketRow>, maxTime: real, ss: seq<Snapshot>, n: nat, t: real)
    requires WellTimed(pkts) && IsSeries(pkts, maxTime, ss) && 1 <= n <= |ss|
    requires if n < |ss| then t == ss[n].time else t == maxTime && 0.0 <= maxTime
    ensures Quiet(pkts, EndTime(ss[..n]), t)
    ensures EndTime(ss[..n]) < t ==> Change(pkts, UpTo(EndTime(ss[..n])), false) == ss[n - 1].bytes
  {
    hide IsSeries, WellTimed, Change, Quiet, AllFrom;
    var a := EndTime(ss[..n]);
    StretchEnds(pkts, maxTime, ss, n, t);
    QuietAfter(pkts, maxTime, ss, n - 1, a, t);
    if n > 1 {
      SnapshotIsQueued(pkts, maxTime, ss, n - 1, false);
    } else if a < t {
      SeriesStart(pkts, maxTime, ss);
      NoEventBetween(pkts, maxTime, ss, 0, a);
      QuietAfter(pkts, maxTime, ss, 0, a, a);
      ChangeAtStart(pkts, a, false);
      NoChangeAt(pkts, a, false);
    }
  }

  /** From the end of the first `n` snapshots to `t`, before any further event, waiting grows by the last snapshot's bytes. */
  lemma Stretch(pkts: seq<PacketRow>, maxTime: real, ss: seq<Snapshot>, n: nat, t: real)
    requires WellTimed(pkts) && IsSeries(pkts, maxTime, ss) && 1 <= n <= |ss|
    requires if n < |ss| then t == ss[n].time else t == maxTime && 0.0 <= maxTime
    ensures EndTime(ss[..n]) <= t
    ensures Waited(pkts, t) == Waited(pkts, EndTime(ss[..n])) + (t - EndTime(ss[..n])) * ss[n - 1].bytes as real
  {
    hide IsSeries, WellTimed, Waited, Change, Quiet, EndTime;
    var a := EndTime(ss[..n]);
    StretchEnds(pkts, maxTime, ss, n, t);
    LevelInStretch(pkts, maxTime, ss, n, t);
    WaitedOverGap(pkts, a, t);
  }

  /** The area under the drawn line from 0 to `maxTime` is the bytes times the time they spend queued by then. */
  lemma AreaIsWaiting(pkts: seq<PacketRow>, maxTime: real, linkRateBps: real, series: Series)
    requires WellTimed(pkts) && 0.0 <= maxTime && IsSeries(pkts, maxTime, series.snapshots)
    requires series.points ==
      if pkts == [] then [Point(0.0, 0, 0.0), Point(maxTime, 0, 0.0)] else Polyline(series.snapshots, maxTime, linkRateBps)
    ensures Area(series.points) == Waited(pkts, maxTime)
  {
    hide IsSeries, WellTimed, Stairs, Area, Waited;
    if pkts == [] {
      LevelArea(maxTime);
    } else {
      var ss := series.snapshots;
      SeriesStart(pkts, maxTime, ss);
      assert ss[..|ss|] == ss;
      StairsArea(pkts, maxTime, ss, |ss|, linkRateBps);
      if EndTime(ss) != maxTime {
        var stairs := Stairs(ss, linkRateBps);
        var last := ss[|ss| - 1];
        var end := Point(maxTime, last.bytes, QueueingDelay(last.bytes, linkRateBps));
        AreaOfStep(stairs, end, end);
        Stretch(pkts, maxTime, ss, |ss|, maxTime);
      }
    }
  }

  lemma LevelArea(maxTime: real)
    ensures Area([Point(0.0, 0, 0.0), Point(maxTime, 0, 0.0)]) == 0.0 == Waited([], maxTime)
  {
  }

  // ---------- thinning for display ----------

  ghost predicate PointsInOrder(points: seq<Point>) {
    forall i, j :: 0 <= i < j < |points| ==> points[i].time <= points[j].time
  }

  /** The number of points before `time`. */
  method LowerBoundQueuePoint(points: seq<Point>, time: real) returns (lo: nat)
    ensures lo <= |points|
    ensures PointsInOrder(points) ==> forall j :: 0 <= j < |points| ==> (j < lo <==> points[j].time < time)
  {
    lo := 0;
    var hi := |points|;
    while lo < hi
      invariant 0 <= lo <= hi <= |points|
      invariant PointsInOrder(points) ==> forall j :: 0 <= j < lo ==> points[j].time < time
      invariant PointsInOrder(points) ==> forall j :: hi <= j < |points| ==> points[j].time >= time
    {
      var mid := (lo + hi) / 2;
      if points[mid].time < time {
        lo := mid + 1;
      } else {
        hi := mid;
      }
    }
  }

  /** The number of points up to `time`. */
  method UpperBoundQueuePoint(points: seq<Point>, time: real) returns (lo: nat)
    ensures lo <= |points|
    ensures PointsInOrder(points) ==> forall j :: 0 <= j < |points| ==> (j < lo <==> points[j].time <= time)
  {
    lo := 0;
    var hi := |points|;
    while lo < hi
      invariant 0 <= lo <= hi <= |points|
      invariant PointsInOrder(points) ==> forall j :: 0 <= j < lo ==> points[j].time <= time
      invariant PointsInOrder(points) ==> forall j :: hi <= j < |points| ==> points[j].time > time
    {
      var mid := (lo + hi) / 2;
      if points[mid].time <= time {
        lo := mid + 1;
      } else {
        hi := mid;
      }
    }
  }

  /** Within [start, end], or the last point before. */
  predicate InWindow(points: seq<Point>, startTime: real, endTime: real, j: nat)
    requires j < |points|
  {
    points[j].time <= endTime && (points[j].time >= startTime || j + 1 == |points| || points[j + 1].time >= startTime)
  }

  /** The indices `lo..hi` are exactly those in the window. */
  ghost predicate IsWindow(points: seq<Point>, startTime: real, endTime: real, lo: nat, hi: nat) {
    && lo <= hi <= |points|
    && forall j :: 0 <= j < |points| ==> (lo <= j < hi <==> InWindow(points, startTime, endTime, j))
  }

  lemma WindowFound(points: seq<Point>, startTime: real, endTime: real, lower: nat, hi: nat)
    requires PointsInOrder(points) && startTime <= endTime && points != [] && lower <= |points| && hi <= |points|
    requires forall j :: 0 <= j < |points| ==> (j < lower <==> points[j].time < startTime)
    requires forall j :: 0 <= j < |points| ==> (j < hi <==> points[j].time <= endTime)
    ensures IsWindow(points, startTime, endTime, if lower > 0 then lower - 1 else 0, hi)
  {
    var lo := if lower > 0 then lower - 1 else 0;
    if lower > 0 { assert points[lower - 1].time < startTime; }
    forall j | 0 <= j < |points|
      ensures lo <= j < hi <==> InWindow(points, startTime, endTime, j)
    {
      if j + 1 < |points| { assert j + 1 < lower <==> points[j + 1].time < startTime; }
    }
  }

  /** ceil(n / m). For m = 0 the division gives infinity, and one stride is as good as `n`. */
  function Stride(n: nat, m: nat): nat {
    if m == 0 then n else (n + m - 1) / m
  }

  /** The stride is the least that covers `n` in at most `m` steps, or in one if `m` is 0. */
  lemma StrideCovers(n: nat, m: nat)
    ensures n <= AtLeastOne(m) * Stride(n, m) && (n > 0 ==> Stride(n, m) > 0)
    ensures n > 0 ==> AtLeastOne(m) * (Stride(n, m) - 1) < n
  {
  }

  /** `kept` lists indices below `n` from the first to the last, in order, with gaps of `gap`, the last one perhaps less. */
  ghost predicate Thinned(kept: seq<nat>, n: nat, gap: nat) {
    && |kept| > 0 && n > 0 && kept[0] == 0 && kept[|kept| - 1] == n - 1
    && (forall i :: 0 < i < |kept| ==> kept[i - 1] < kept[i] <= kept[i - 1] + gap)
    && (forall i :: 0 < i < |kept| - 1 ==> kept[i] == kept[i - 1] + gap)
  }

  ghost predicate Picks(sampled: seq<Point>, window: seq<Point>, kept: seq<nat>) {
    |sampled| == |kept| && forall i :: 0 <= i < |kept| ==> kept[i] < |window| && sampled[i] == window[kept[i]]
  }

  /** Every `stride`-th point of a window and its last. Two points of the list are different objects, so
      the last kept point is told from the last of the window by its place. */
  method Thin(relevant: seq<Point>, maxPoints: nat) returns (sampled: seq<Point>, ghost kept: seq<nat>)
    requires |relevant| > maxPoints
    ensures Thinned(kept, |relevant|, Stride(|relevant|, maxPoints)) && Picks(sampled, relevant, kept)
    ensures |sampled| <= AtLeastOne(maxPoints) + 1
  {
    hide Stride;
    var n := |relevant|;
    var stride := Stride(n, maxPoints);
    StrideCovers(n, maxPoints);
    ghost var most := AtLeastOne(maxPoints);
    sampled, kept := [], [];
    var i, last := 0, 0;
    while i < n
      invariant i == |kept| * stride && |kept| <= most && Picks(sampled, relevant, kept)
      invariant |kept| > 0 ==> kept[0] == 0 && kept[|kept| - 1] == last == i - stride && last < n
      invariant forall c :: 0 < c < |kept| ==> kept[c] == kept[c - 1] + stride
    {
      FewSteps(|kept|, stride, n, most);
      NextStep(|kept|, stride);
      sampled, kept := sampled + [relevant[i]], kept + [i];
      last := i;
      i := i + stride;
    }
    if last != n - 1 {
      sampled, kept := sampled + [relevant[n - 1]], kept + [n - 1];
    }
  }

  /** At most `maxPoints + 1` points of the window (2 if `maxPoints` is 0), evenly spaced, its first and last among them. */
  method SampleQueuePoints(points: seq<Point>, startTime: real, endTime: real, maxPoints: nat)
    returns (sampled: seq<Point>, ghost kept: seq<nat>, ghost lo: nat, ghost hi: nat)
    ensures points == [] || endTime < startTime ==> sampled == []
    ensures points != [] && startTime <= endTime && PointsInOrder(points) ==>
      && IsWindow(points, startTime, endTime, lo, hi)
      && (hi - lo <= maxPoints ==> sampled == points[lo..hi])
      && (hi - lo > maxPoints ==>
            && Thinned(kept, hi - lo, Stride(hi - lo, maxPoints)) && Picks(sampled, points[lo..hi], kept)
            && |sampled| <= AtLeastOne(maxPoints) + 1)
  {
    hide Thinned, Picks, Stride;
    kept, lo, hi := [], 0, 0;
    sampled := [];
    if |points| == 0 || endTime < startTime {
      return;
    }
    var lower := LowerBoundQueuePoint(points, startTime);
    var startIdx := if lower > 0 then lower - 1 else 0;
    var endExclusive := UpperBoundQueuePoint(points, endTime);
    lo, hi := startIdx, endExclusive;
    if PointsInOrder(points) { WindowFound(points, startTime, endTime, lower, hi); }
    var relevant := if startIdx <= endExclusive then points[startIdx..endExclusive] else [];
    if |relevant| <= maxPoints {
      sampled := relevant;
      return;
    }
    sampled, kept := Thin(relevant, maxPoints);
  }

  /** The points of the stairs are in the order of time, from 0 on. */
  lemma {:induction false} StairsInOrder(pkts: seq<PacketRow>, maxTime: real, ss: seq<Snapshot>, n: nat, linkRateBps: real)
    requires WellTimed(pkts) && IsSeries(pkts, maxTime, ss) && 1 <= n <= |ss|
    ensures PointsInOrder(Stairs(ss[..n], linkRateBps))
    ensures forall i :: 0 <= i < |Stairs(ss[..n], linkRateBps)| ==> 0.0 <= Stairs(ss[..n], linkRateBps)[i].time <= EndTime(ss[..n])
    decreases n
  {
    hide IsSeries, WellTimed;
    if n == 1 {
      SeriesStart(pkts, maxTime, ss);
    } else {
      assert ss[..n][..n - 1] == ss[..n - 1];
      StairsInOrder(pkts, maxTime, ss, n - 1, linkRateBps);
      StairsEnd(ss[..n - 1], linkRateBps);
      StretchEnds(pkts, maxTime, ss, n - 1, ss[n - 1].time);
    }
  }

  /** So are the points of the line. */
  lemma PolylineInOrder(pkts: seq<PacketRow>, maxTime: real, ss: seq<Snapshot>, linkRateBps: real)
    requires WellTimed(pkts) && IsSeries(pkts, maxTime, ss) && 0.0 <= maxTime && |ss| >= 1
    ensures PointsInOrder(Polyline(ss, maxTime, linkRateBps))
    ensures var points := Polyline(ss, maxTime, linkRateBps);
      |points| > 0 && forall i :: 0 <= i < |points| ==> 0.0 <= points[i].time <= maxTime
  {
    hide IsSeries, WellTimed;
    assert ss[..|ss|] == ss;
    StairsInOrder(pkts, maxTime, ss, |ss|, linkRateBps);
    StairsEnd(ss, linkRateBps);
    StretchEnds(pkts, maxTime, ss, |ss|, maxTime);
  }

  /** The points of a link's graph from `startTime` to `maxTime`, as the browser draws them: build the
      series, sample it. The selection is of the whole window, and its last point is at `maxTime`. */
  method PointsToDraw(pkts: seq<PacketRow>, startTime: real, maxTime: real, linkRateBps: real, maxPoints: nat)
    returns (series: Series, sampled: seq<Point>, ghost kept: seq<nat>, ghost lo: nat, ghost hi: nat)
    requires WellTimed(pkts) && 0.0 <= maxTime
    ensures IsSeries(pkts, maxTime, series.snapshots) && |series.points| > 0
    ensures startTime > maxTime ==> sampled == []
    ensures startTime <= maxTime ==>
      && IsWindow(series.points, startTime, maxTime, lo, hi) && lo < hi == |series.points|
      && (hi - lo <= maxPoints ==> sampled == series.points[lo..])
      && (hi - lo > maxPoints ==>
            && Thinned(kept, hi - lo, Stride(hi - lo, maxPoints)) && Picks(sampled, series.points[lo..], kept)
            && |sampled| <= AtLeastOne(maxPoints) + 1)
  {
    hide IsSeries, WellTimed, Thinned, Picks, Stride;
    series := BuildQueueSeries(pkts, maxTime, linkRateBps);
    SeriesNotEmpty(pkts, maxTime, series.snapshots);
    PolylineInOrder(pkts, maxTime, series.snapshots, linkRateBps);
    sampled, kept, lo, hi := SampleQueuePoints(series.points, startTime, maxTime, maxPoints);
    if startTime <= maxTime {
      WindowToEnd(series.points, startTime, maxTime, lo, hi);
      assert series.points[lo..hi] == series.points[lo..];
    }
  }

  lemma WindowToEnd(points: seq<Point>, startTime: real, endTime: real, lo: nat, hi: nat)
    requires IsWindow(points, startTime, endTime, lo, hi) && points != []
    requires forall i :: 0 <= i < |points| ==> points[i].time <= endTime
    ensures lo < hi == |points|
  {
    assert InWindow(points, startTime, endTime, |points| - 1);
  }

  lemma NextStep(c: nat, stride: nat)
    ensures (c + 1) * stride == c * stride + stride
  {
  }

  lemma FewSteps(c: nat, stride: nat, n: nat, m: nat)
    requires c * stride < n <= m * stride
    ensures c < m
  {
  }
}
