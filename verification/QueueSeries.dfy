/**
  The queue graph of a link (`buildQueueSeries` in frontend/app/page.tsx): a sort and a sweep turn
  packets into a step function of time, and that into a line to draw. What the step function and the
  line mean is proved in `QueueGraph`.
*/
module QueueSeries {
  import opened Csv
  import opened Sorting

  // ---------- the direct sums ----------

  /** A packet counts as its size, or as 1. */
  function Weight(p: PacketRow, count: bool): int {
    if count then 1 else p.size
  }

  /** Bytes (or packets) in the queue at time `t`: those enqueued by `t` and dequeued later. */
  function Queued(pkts: seq<PacketRow>, t: real, count: bool): int {
    if pkts == [] then 0
    else
      var p := pkts[|pkts| - 1];
      Queued(pkts[..|pkts| - 1], t, count) + if p.enqueueTime <= t < p.dequeueTime then Weight(p, count) else 0
  }

  predicate WellTimed(pkts: seq<PacketRow>) {
    forall i :: 0 <= i < |pkts| ==> pkts[i].size >= 0 && 0.0 <= pkts[i].enqueueTime <= pkts[i].dequeueTime
  }

  // ---------- events ----------

  datatype QueueEvent = QueueEvent(time: real, deltaBytes: int, deltaPackets: int)

  datatype Window = UpTo(t: real) | At(t: real) {
    predicate Has(time: real) {
      match this
      case UpTo(t) => time <= t
      case At(t) => time == t
    }
  }

  function Delta(e: QueueEvent, count: bool): int {
    if count then e.deltaPackets else e.deltaBytes
  }

  function Total(events: seq<QueueEvent>, w: Window, count: bool): int {
    if events == [] then 0
    else
      var e := events[|events| - 1];
      Total(events[..|events| - 1], w, count) + if w.Has(e.time) then Delta(e, count) else 0
  }

  function ChangeOf(p: PacketRow, w: Window, count: bool): int {
    (if w.Has(p.enqueueTime) then Weight(p, count) else 0) - (if w.Has(p.dequeueTime) then Weight(p, count) else 0)
  }

  /** The net change that the packets' own times make within a window. */
  function Change(pkts: seq<PacketRow>, w: Window, count: bool): int {
    if pkts == [] then 0 else Change(pkts[..|pkts| - 1], w, count) + ChangeOf(pkts[|pkts| - 1], w, count)
  }

  method EventsOf(pkts: seq<PacketRow>) returns (events: seq<QueueEvent>)
    ensures forall w, count :: Total(events, w, count) == Change(pkts, w, count)
    ensures forall t :: EventAt(events, |events|, t) <==> IsEventTime(pkts, t)
  {
    events := [];
    var i := 0;
    while i < |pkts|
      invariant 0 <= i <= |pkts|
      invariant forall w, count :: Total(events, w, count) == Change(pkts[..i], w, count)
      invariant forall t :: EventAt(events, |events|, t) <==> IsEventTime(pkts[..i], t)
    {
      var p := pkts[i];
      assert pkts[..i + 1][..i] == pkts[..i] && pkts[..i + 1] == pkts[..i] + [p];
      var enq := QueueEvent(p.enqueueTime, p.size, 1);
      var deq := QueueEvent(p.dequeueTime, -p.size, -1);
      ghost var before := events;
      events := events + [enq];
      events := events + [deq];
      TwoMore(before, enq, deq);
      forall t
        ensures EventAt(events, |events|, t) <==> IsEventTime(pkts[..i + 1], t)
      {
        TwoMoreTimes(before, enq, deq, t);
        OneMorePacket(pkts[..i], p, t);
      }
      i := i + 1;
    }
    assert pkts[..i] == pkts;
  }

  lemma TwoMore(events: seq<QueueEvent>, a: QueueEvent, b: QueueEvent)
    ensures forall w, count ::
      Total(events + [a] + [b], w, count) ==
      Total(events, w, count) + (if w.Has(a.time) then Delta(a, count) else 0) + (if w.Has(b.time) then Delta(b, count) else 0)
  {
  }

  /** One of the first `n` events has time `t`. */
  ghost predicate EventAt(events: seq<QueueEvent>, n: nat, t: real)
    requires n <= |events|
  {
    exists k :: 0 <= k < n && events[k].time == t
  }

  lemma TwoMoreTimes(events: seq<QueueEvent>, a: QueueEvent, b: QueueEvent, t: real)
    ensures EventAt(events + [a] + [b], |events| + 2, t) <==> EventAt(events, |events|, t) || a.time == t || b.time == t
  {
    var more := events + [a] + [b];
    assert more[|events|] == a && more[|events| + 1] == b;
    if k :| 0 <= k < |events| && events[k].time == t {
      assert more[k].time == t;
    }
  }

  lemma OneMorePacket(pkts: seq<PacketRow>, p: PacketRow, t: real)
    ensures IsEventTime(pkts + [p], t) <==> IsEventTime(pkts, t) || HasTime(p, t)
  {
  }

  predicate HasTime(p: PacketRow, t: real) {
    p.enqueueTime == t || p.dequeueTime == t
  }

  ghost predicate IsEventTime(pkts: seq<PacketRow>, t: real) {
    exists p :: p in pkts && HasTime(p, t)
  }

  lemma {:induction false} TotalConcat(a: seq<QueueEvent>, b: seq<QueueEvent>, w: Window, count: bool)
    ensures Total(a + b, w, count) == Total(a, w, count) + Total(b, w, count)
    decreases |b|
  {
    if b == [] {
      assert a + b == a;
    } else {
      assert (a + b)[..|a + b| - 1] == a + b[..|b| - 1];
      TotalConcat(a, b[..|b| - 1], w, count);
    }
  }

  lemma {:induction false} TotalIsSum(f: QueueEvent -> int, events: seq<QueueEvent>, w: Window, count: bool)
    requires forall e :: f(e) == if w.Has(e.time) then Delta(e, count) else 0
    ensures Total(events, w, count) == Sum(f, events)
    decreases |events|
  {
    if events != [] { TotalIsSum(f, events[..|events| - 1], w, count); }
  }

  /** Totals do not depend on the order of the events. */
  lemma TotalPermuted(a: seq<QueueEvent>, b: seq<QueueEvent>, w: Window, count: bool)
    requires multiset(a) == multiset(b)
    ensures Total(a, w, count) == Total(b, w, count)
  {
    var f := (e: QueueEvent) => if w.Has(e.time) then Delta(e, count) else 0;
    TotalIsSum(f, a, w, count);
    TotalIsSum(f, b, w, count);
    SumPermuted(f, a, b);
  }

  lemma {:induction false} TotalOutside(events: seq<QueueEvent>, w: Window, count: bool)
    requires forall i :: 0 <= i < |events| ==> !w.Has(events[i].time)
    ensures Total(events, w, count) == 0
    decreases |events|
  {
    if events != [] { TotalOutside(events[..|events| - 1], w, count); }
  }

  // ---------- the series ----------

  datatype Point = Point(time: real, size: int, delay: real)
  datatype Snapshot = Snapshot(time: real, bytes: int, packets: int)
  datatype Series = Series(points: seq<Point>, snapshots: seq<Snapshot>)

  function Value(s: Snapshot, count: bool): int {
    if count then s.packets else s.bytes
  }

  function Clamp(n: int): int {
    if n > 0 then n else 0
  }

  function QueueingDelay(bytes: int, linkRateBps: real): real {
    if linkRateBps <= 0.0 then 0.0 else bytes as real * 8.0 / linkRateBps
  }

  /** The delay is the time in which the link sends the bytes waiting, 8 bits each; 0 without a rate. */
  ghost predicate IsSendingTime(delay: real, bytes: int, linkRateBps: real) {
    if linkRateBps > 0.0 then delay * linkRateBps == 8.0 * bytes as real else delay == 0.0
  }

  lemma QueueingDelayIsSendingTime(bytes: int, linkRateBps: real)
    ensures IsSendingTime(QueueingDelay(bytes, linkRateBps), bytes, linkRateBps)
  {
  }

  /** Every point shows the delay of its own bytes. */
  ghost predicate ShowDelays(points: seq<Point>, linkRateBps: real) {
    forall i :: 0 <= i < |points| ==> IsSendingTime(points[i].delay, points[i].size, linkRateBps)
  }

  lemma NothingToSend(maxTime: real, linkRateBps: real)
    ensures ShowDelays([Point(0.0, 0, 0.0), Point(maxTime, 0, 0.0)], linkRateBps)
  {
  }

  lemma {:induction false} StairsDelays(ss: seq<Snapshot>, linkRateBps: real)
    requires |ss| >= 1 && ss[0].bytes == 0
    ensures ShowDelays(Stairs(ss, linkRateBps), linkRateBps)
    decreases |ss|
  {
    hide QueueingDelay;
    if |ss| > 1 {
      StairsDelays(ss[..|ss| - 1], linkRateBps);
      QueueingDelayIsSendingTime(ss[|ss| - 2].bytes, linkRateBps);
      QueueingDelayIsSendingTime(ss[|ss| - 1].bytes, linkRateBps);
    }
  }

  lemma PolylineDelays(ss: seq<Snapshot>, maxTime: real, linkRateBps: real)
    requires |ss| >= 1 && ss[0].bytes == 0
    ensures ShowDelays(Polyline(ss, maxTime, linkRateBps), linkRateBps)
  {
    hide QueueingDelay, IsSendingTime;
    StairsDelays(ss, linkRateBps);
    QueueingDelayIsSendingTime(ss[|ss| - 1].bytes, linkRateBps);
  }

  /** One snapshot at time 0 with an empty queue, then one per distinct event time up to `maxTime`, in
      order, each the one before it changed by the events of its time and clamped at 0. */
  ghost predicate IsSeries(pkts: seq<PacketRow>, maxTime: real, ss: seq<Snapshot>) {
    && |ss| >= 1 && ss[0] == Snapshot(0.0, 0, 0)
    && (forall i :: 1 <= i < |ss| ==> ss[i].time <= maxTime && IsEventTime(pkts, ss[i].time))
    && (forall i, j :: 1 <= i < j < |ss| ==> ss[i].time < ss[j].time)
    && (forall t :: t <= maxTime && IsEventTime(pkts, t) ==> HasSnapshot(ss, t))
    && (forall i, count :: 1 <= i < |ss| ==>
          Value(ss[i], count) == Clamp(Value(ss[i - 1], count) + Change(pkts, At(ss[i].time), count)))
  }

  ghost predicate HasSnapshot(ss: seq<Snapshot>, t: real) {
    exists i :: 1 <= i < |ss| && ss[i].time == t
  }

  /** The drawn line: up or down at each snapshot's time, level in between, to `maxTime`. */
  function Stairs(ss: seq<Snapshot>, linkRateBps: real): seq<Point>
    requires |ss| >= 1
  {
    if |ss| == 1 then [Point(0.0, 0, 0.0)]
    else
      var (before, s) := (ss[|ss| - 2], ss[|ss| - 1]);
      Stairs(ss[..|ss| - 1], linkRateBps) + [
        Point(s.time, before.bytes, QueueingDelay(before.bytes, linkRateBps)),
        Point(s.time, s.bytes, QueueingDelay(s.bytes, linkRateBps))]
  }

  function Polyline(ss: seq<Snapshot>, maxTime: real, linkRateBps: real): seq<Point>
    requires |ss| >= 1
  {
    var stairs := Stairs(ss, linkRateBps);
    var last := ss[|ss| - 1];
    if EndTime(ss) != maxTime then stairs + [Point(maxTime, last.bytes, QueueingDelay(last.bytes, linkRateBps))] else stairs
  }

  /** The time of the last point of the stairs. */
  function EndTime(ss: seq<Snapshot>): real
    requires |ss| >= 1
  {
    if |ss| == 1 then 0.0 else ss[|ss| - 1].time
  }

  lemma StairsEnd(ss: seq<Snapshot>, linkRateBps: real)
    requires |ss| >= 1
    ensures var stairs := Stairs(ss, linkRateBps); |stairs| == 2 * |ss| - 1 && stairs[|stairs| - 1].time == EndTime(ss)
  {
  }

  ghost predicate InTimeOrder(events: seq<QueueEvent>) {
    forall i, j :: 0 <= i < j < |events| ==> events[i].time <= events[j].time
  }

  /** The snapshots' times are those of the first `idx` events, each once. */
  ghost predicate TimesSwept(events: seq<QueueEvent>, idx: nat, maxTime: real, ss: seq<Snapshot>) {
    && |ss| >= 1 && idx <= |events|
    && (forall i :: 1 <= i < |ss| ==> ss[i].time <= maxTime && EventAt(events, idx, ss[i].time))
    && (forall i, j :: 1 <= i < j < |ss| ==> ss[i].time < ss[j].time)
    && (forall k :: 0 <= k < idx ==> HasSnapshot(ss, events[k].time))
    && (forall k :: idx <= k < |events| && |ss| > 1 ==> ss[|ss| - 1].time < events[k].time)
  }

  /** Each snapshot is the one before it, changed by the events of its time. */
  ghost predicate ValuesSwept(events: seq<QueueEvent>, ss: seq<Snapshot>) {
    && |ss| >= 1 && ss[0] == Snapshot(0.0, 0, 0)
    && forall i, count :: 1 <= i < |ss| ==>
         Value(ss[i], count) == Clamp(Value(ss[i - 1], count) + Total(events, At(ss[i].time), count))
  }

  /** The inner loop of the sweep: all events of one time, from `start` on. */
  method GroupChange(events: seq<QueueEvent>, start: nat, time: real) returns (idx: nat, deltaBytes: int, deltaPackets: int)
    requires start < |events| && events[start].time == time
    ensures start < idx <= |events| && (forall k :: start <= k < idx ==> events[k].time == time)
    ensures idx < |events| ==> events[idx].time != time
    ensures deltaBytes == Total(events[start..idx], At(time), false)
    ensures deltaPackets == Total(events[start..idx], At(time), true)
  {
    idx, deltaBytes, deltaPackets := start, 0, 0;
    while idx < |events| && events[idx].time == time
      invariant start <= idx <= |events|
      invariant forall k :: start <= k < idx ==> events[k].time == time
      invariant deltaBytes == Total(events[start..idx], At(time), false)
      invariant deltaPackets == Total(events[start..idx], At(time), true)
    {
      assert events[start..idx + 1][..idx - start] == events[start..idx];
      deltaBytes := deltaBytes + events[idx].deltaBytes;
      deltaPackets := deltaPackets + events[idx].deltaPackets;
      idx := idx + 1;
    }
  }

  method BuildQueueSeries(pkts: seq<PacketRow>, maxTime: real, linkRateBps: real) returns (series: Series)
    ensures IsSeries(pkts, maxTime, series.snapshots)
    ensures series.points ==
      if pkts == [] then [Point(0.0, 0, 0.0), Point(maxTime, 0, 0.0)] else Polyline(series.snapshots, maxTime, linkRateBps)
    ensures ShowDelays(series.points, linkRateBps)
  {
    hide TimesSwept, ValuesSwept, IsSeries, InTimeOrder, EventAt, Total, Clamp, QueueingDelay, IsSorting, ShowDelays;
    if |pkts| == 0 {
      EmptySeries(maxTime);
      NothingToSend(maxTime, linkRateBps);
      return Series([Point(0.0, 0, 0.0), Point(maxTime, 0, 0.0)], [Snapshot(0.0, 0, 0)]);
    }
    var unsorted := EventsOf(pkts);
    var key := (e: QueueEvent) => e.time;
    var events := SortBy(key, unsorted);
    SortedEvents(key, unsorted, events);
    var bytes, packets, idx := 0, 0, 0;
    var points := [Point(0.0, 0, 0.0)];
    var snapshots := [Snapshot(0.0, 0, 0)];
    NothingSwept(events, maxTime);
    while idx < |events|
      invariant |snapshots| >= 1 && idx <= |events|
      invariant TimesSwept(events, idx, maxTime, snapshots) && ValuesSwept(events, snapshots)
      invariant snapshots[|snapshots| - 1].bytes == bytes && snapshots[|snapshots| - 1].packets == packets
      invariant points == Stairs(snapshots, linkRateBps)
    {
      var time := events[idx].time;
      if time > maxTime {
        break;
      }
      points := points + [Point(time, bytes, QueueingDelay(bytes, linkRateBps))];
      ghost var start := idx;
      var deltaBytes, deltaPackets;
      idx, deltaBytes, deltaPackets := GroupChange(events, idx, time);
      ghost var s := Snapshot(time, Clamp(bytes + deltaBytes), Clamp(packets + deltaPackets));
      SweepTimes(events, start, idx, maxTime, snapshots, s);
      SweepValues(events, start, idx, maxTime, snapshots, s);
      assert (snapshots + [s])[..|snapshots|] == snapshots;
      bytes := Clamp(bytes + deltaBytes);
      packets := Clamp(packets + deltaPackets);
      points := points + [Point(time, bytes, QueueingDelay(bytes, linkRateBps))];
      snapshots := snapshots + [Snapshot(time, bytes, packets)];
    }
    SweptIsSeries(pkts, events, idx, maxTime, snapshots);
    StairsEnd(snapshots, linkRateBps);
    if points[|points| - 1].time != maxTime {
      var last := snapshots[|snapshots| - 1];
      points := points + [Point(maxTime, last.bytes, QueueingDelay(last.bytes, linkRateBps))];
    }
    StartsEmpty(events, snapshots);
    PolylineDelays(snapshots, maxTime, linkRateBps);
    series := Series(points, snapshots);
  }

  lemma StartsEmpty(events: seq<QueueEvent>, ss: seq<Snapshot>)
    requires ValuesSwept(events, ss)
    ensures |ss| >= 1 && ss[0].bytes == 0
  {
  }

  lemma NothingSwept(events: seq<QueueEvent>, maxTime: real)
    ensures var ss := [Snapshot(0.0, 0, 0)]; TimesSwept(events, 0, maxTime, ss) && ValuesSwept(events, ss)
  {
  }

  lemma EmptySeries(maxTime: real)
    ensures IsSeries([], maxTime, [Snapshot(0.0, 0, 0)])
  {
  }

  lemma SortedEvents(key: QueueEvent -> real, unsorted: seq<QueueEvent>, events: seq<QueueEvent>)
    requires IsSorting(key, unsorted, events) && forall e :: key(e) == e.time
    ensures InTimeOrder(events)
    ensures forall w, count :: Total(events, w, count) == Total(unsorted, w, count)
    ensures forall t :: EventAt(events, |events|, t) <==> EventAt(unsorted, |unsorted|, t)
  {
    SortingMembers(key, unsorted, events);
    forall t
      ensures EventAt(events, |events|, t) <==> EventAt(unsorted, |unsorted|, t)
    {
      SameTimes(events, unsorted, t);
      SameTimes(unsorted, events, t);
    }
    forall i, j | 0 <= i < j < |events|
      ensures events[i].time <= events[j].time
    {
      assert key(events[i]) <= key(events[j]);
    }
    forall w, count { TotalPermuted(events, unsorted, w, count); }
  }

  lemma SameTimes(a: seq<QueueEvent>, b: seq<QueueEvent>, t: real)
    requires forall e :: e in a ==> e in b
    ensures EventAt(a, |a|, t) ==> EventAt(b, |b|, t)
  {
    if k :| 0 <= k < |a| && a[k].time == t {
      assert a[k] in a;
      var m :| 0 <= m < |b| && b[m] == a[k];
    }
  }

  /** The events before `start` are earlier, and those from `idx` on later, than the group in between. */
  lemma GroupIsolated(events: seq<QueueEvent>, start: nat, idx: nat, maxTime: real, ss: seq<Snapshot>, time: real)
    requires TimesSwept(events, start, maxTime, ss) && InTimeOrder(events) && start < idx <= |events|
    requires forall k :: start <= k < idx ==> events[k].time == time
    requires idx < |events| ==> events[idx].time != time
    ensures forall k :: 0 <= k < start ==> events[k].time < time
    ensures forall k :: idx <= k < |events| ==> time < events[k].time
  {
    forall k | 0 <= k < start
      ensures events[k].time < time
    {
      assert HasSnapshot(ss, events[k].time);
      var i :| 1 <= i < |ss| && ss[i].time == events[k].time;
      assert ss[i].time <= ss[|ss| - 1].time < events[start].time;
    }
    forall k | idx <= k < |events|
      ensures time < events[k].time
    {
      assert events[start].time <= events[idx].time <= events[k].time;
    }
  }

  /** One group of events of the same time becomes one more snapshot: its time. */
  lemma SweepTimes(events: seq<QueueEvent>, start: nat, idx: nat, maxTime: real, ss: seq<Snapshot>, s: Snapshot)
    requires TimesSwept(events, start, maxTime, ss) && InTimeOrder(events) && start < idx <= |events|
    requires forall k :: start <= k < idx ==> events[k].time == s.time
    requires idx < |events| ==> events[idx].time != s.time
    requires s.time <= maxTime
    ensures TimesSwept(events, idx, maxTime, ss + [s])
  {
    GroupIsolated(events, start, idx, maxTime, ss, s.time);
    var more := ss + [s];
    forall k | 0 <= k < idx
      ensures HasSnapshot(more, events[k].time)
    {
      if k < start {
        assert HasSnapshot(ss, events[k].time);
        var i :| 1 <= i < |ss| && ss[i].time == events[k].time;
        assert more[i].time == events[k].time;
      } else {
        assert more[|ss|].time == events[k].time;
      }
    }
    forall i | 1 <= i < |more|
      ensures more[i].time <= maxTime && EventAt(events, idx, more[i].time)
    {
      if i < |ss| {
        assert EventAt(events, start, ss[i].time);
      } else {
        assert events[start].time == more[i].time;
      }
    }
    forall i | 1 <= i < |ss|
      ensures ss[i].time < s.time
    {
      assert ss[i].time <= ss[|ss| - 1].time < events[start].time;
    }
  }

  lemma TotalOfGroup(events: seq<QueueEvent>, start: nat, idx: nat, time: real, count: bool)
    requires start < idx <= |events|
    requires forall k :: 0 <= k < start ==> events[k].time < time
    requires forall k :: idx <= k < |events| ==> time < events[k].time
    ensures Total(events, At(time), count) == Total(events[start..idx], At(time), count)
  {
    var (a, b, c) := (events[..start], events[start..idx], events[idx..]);
    assert events == a + (b + c);
    TotalConcat(a, b + c, At(time), count);
    TotalConcat(b, c, At(time), count);
    TotalOutside(a, At(time), count);
    TotalOutside(c, At(time), count);
  }

  /** One group of events of the same time becomes one more snapshot: its value. */
  lemma SweepValues(events: seq<QueueEvent>, start: nat, idx: nat, maxTime: real, ss: seq<Snapshot>, s: Snapshot)
    requires TimesSwept(events, start, maxTime, ss) && ValuesSwept(events, ss) && InTimeOrder(events)
    requires start < idx <= |events|
    requires forall k :: start <= k < idx ==> events[k].time == s.time
    requires idx < |events| ==> events[idx].time != s.time
    requires forall count :: Value(s, count) == Clamp(Value(ss[|ss| - 1], count) + Total(events[start..idx], At(s.time), count))
    ensures ValuesSwept(events, ss + [s])
  {
    hide TimesSwept, InTimeOrder, Total;
    GroupIsolated(events, start, idx, maxTime, ss, s.time);
    TotalOfGroup(events, start, idx, s.time, false);
    TotalOfGroup(events, start, idx, s.time, true);
    var more := ss + [s];
    forall i, count | 1 <= i < |more|
      ensures Value(more[i], count) == Clamp(Value(more[i - 1], count) + Total(events, At(more[i].time), count))
    {
      if i < |ss| {
        assert more[i] == ss[i] && more[i - 1] == ss[i - 1];
      } else {
        assert more[i] == s && more[i - 1] == ss[|ss| - 1];
      }
    }
  }

  lemma SweptIsSeries(pkts: seq<PacketRow>, events: seq<QueueEvent>, idx: nat, maxTime: real, ss: seq<Snapshot>)
    requires TimesSwept(events, idx, maxTime, ss) && ValuesSwept(events, ss) && InTimeOrder(events)
    requires idx < |events| ==> events[idx].time > maxTime
    requires forall w, count :: Total(events, w, count) == Change(pkts, w, count)
    requires forall t :: EventAt(events, |events|, t) <==> IsEventTime(pkts, t)
    ensures IsSeries(pkts, maxTime, ss)
  {
    forall i | 1 <= i < |ss|
      ensures IsEventTime(pkts, ss[i].time)
    {
      assert EventAt(events, idx, ss[i].time);
      assert EventAt(events, |events|, ss[i].time);
    }
    forall k | idx <= k < |events|
      ensures events[k].time > maxTime
    {
      assert events[idx].time <= events[k].time;
    }
    forall t | t <= maxTime && IsEventTime(pkts, t)
      ensures HasSnapshot(ss, t)
    {
      assert EventAt(events, |events|, t);
      var k :| 0 <= k < |events| && events[k].time == t;
    }
  }
}
