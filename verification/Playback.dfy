/**
  The playback of packet traces (the animation memo in frontend/app/page.tsx). For every link a cursor
  remembers how far playback has come; a frame at a later time moves the cursors on in place, a frame at
  an earlier time starts them again. After any frames, each cursor holds the queue depth that the sums of
  `QueueSeries` give for the last frame's time, and the packets in flight that `Flights.FlightsAfter` gives
  for the frames. Dot positions are left out.
*/
module Playback {
  import opened Csv
  import opened Sorting
  import opened QueueSeries
  import opened Flights
  import QueueGraph

  method PrepareLink(pkts: seq<PacketRow>) returns (data: LinkAnimationData)
    ensures IsDataOf(pkts, data)
  {
    var dequeueEvents := SortBy(DequeueKey, pkts);
    var enqueueEvents := SortBy(EnqueueKey, pkts);
    var inFlightEndEvents := SortBy(ArriveKey, pkts);
    var inFlightStartEvents := SortBy(DequeueKey, pkts);
    data := LinkAnimationData(enqueueEvents, dequeueEvents, inFlightStartEvents, inFlightEndEvents);
  }

  // ---------- the cursor ----------

  class LinkAnimationCursor {
    var activeInFlight: seq<PacketRow>
    var dequeueIdx: nat
    var depth: int
    var enqueueIdx: nat
    var inFlightEndIdx: nat
    var inFlightStartIdx: nat

    constructor ()
      ensures activeInFlight == [] && depth == 0
      ensures enqueueIdx == dequeueIdx == inFlightStartIdx == inFlightEndIdx == 0
    {
      activeInFlight, dequeueIdx, depth, enqueueIdx, inFlightEndIdx, inFlightStartIdx := [], 0, 0, 0, 0, 0;
    }

    ghost predicate Consistent(data: LinkAnimationData)
      reads this
    {
      && enqueueIdx <= |data.enqueueEvents| && dequeueIdx <= |data.dequeueEvents|
      && depth == Sum(SizeOf, data.enqueueEvents[..enqueueIdx]) - Sum(SizeOf, data.dequeueEvents[..dequeueIdx])
      && inFlightStartIdx <= |data.inFlightStartEvents| && inFlightEndIdx <= |data.inFlightEndEvents|
      && (NeverAhead(data.inFlightStartEvents) ==>
            && AllFound(data.inFlightStartEvents[..inFlightStartIdx], data.inFlightEndEvents[..inFlightEndIdx])
            && activeInFlight == TakenOut(data.inFlightStartEvents[..inFlightStartIdx], data.inFlightEndEvents[..inFlightEndIdx]))
    }

    /** The cursor stands at time `t`. */
    ghost predicate At(data: LinkAnimationData, t: real)
      reads this
    {
      && Consistent(data)
      && Happened(EnqueueKey, data.enqueueEvents, t, enqueueIdx)
      && Happened(DequeueKey, data.dequeueEvents, t, dequeueIdx)
      && Happened(DequeueKey, data.inFlightStartEvents, t, inFlightStartIdx)
      && Happened(ArriveKey, data.inFlightEndEvents, t, inFlightEndIdx)
    }

    /** The cursor stands at or before time `t`. */
    ghost predicate Behind(data: LinkAnimationData, t: real)
      reads this
    {
      && Consistent(data)
      && HappenedBy(EnqueueKey, data.enqueueEvents, t, enqueueIdx)
      && HappenedBy(DequeueKey, data.dequeueEvents, t, dequeueIdx)
      && HappenedBy(DequeueKey, data.inFlightStartEvents, t, inFlightStartIdx)
      && HappenedBy(ArriveKey, data.inFlightEndEvents, t, inFlightEndIdx)
    }

    /** The first loop: packets that have entered the queue. */
    method AddEnqueued(data: LinkAnimationData, animTime: real)
      requires enqueueIdx <= |data.enqueueEvents| && SortedBy(EnqueueKey, data.enqueueEvents)
      requires HappenedBy(EnqueueKey, data.enqueueEvents, animTime, enqueueIdx)
      modifies this`depth, this`enqueueIdx
      ensures Happened(EnqueueKey, data.enqueueEvents, animTime, enqueueIdx)
      ensures depth - Sum(SizeOf, data.enqueueEvents[..enqueueIdx]) ==
        old(depth) - Sum(SizeOf, data.enqueueEvents[..old(enqueueIdx)])
    {
      hide Sum, SortedBy;
      while enqueueIdx < |data.enqueueEvents| && data.enqueueEvents[enqueueIdx].enqueueTime <= animTime
        invariant HappenedBy(EnqueueKey, data.enqueueEvents, animTime, enqueueIdx)
        invariant depth - Sum(SizeOf, data.enqueueEvents[..enqueueIdx]) ==
          old(depth) - Sum(SizeOf, data.enqueueEvents[..old(enqueueIdx)])
      {
        NextSize(data.enqueueEvents, enqueueIdx);
        depth := depth + data.enqueueEvents[enqueueIdx].size;
        enqueueIdx := enqueueIdx + 1;
      }
      RestIsLater(EnqueueKey, data.enqueueEvents, animTime, enqueueIdx);
    }

    /** The second loop: packets that have left the queue. */
    method SubtractDequeued(data: LinkAnimationData, animTime: real)
      requires dequeueIdx <= |data.dequeueEvents| && SortedBy(DequeueKey, data.dequeueEvents)
      requires HappenedBy(DequeueKey, data.dequeueEvents, animTime, dequeueIdx)
      modifies this`depth, this`dequeueIdx
      ensures Happened(DequeueKey, data.dequeueEvents, animTime, dequeueIdx)
      ensures depth + Sum(SizeOf, data.dequeueEvents[..dequeueIdx]) ==
        old(depth) + Sum(SizeOf, data.dequeueEvents[..old(dequeueIdx)])
    {
      hide Sum, SortedBy;
      while dequeueIdx < |data.dequeueEvents| && data.dequeueEvents[dequeueIdx].dequeueTime <= animTime
        invariant HappenedBy(DequeueKey, data.dequeueEvents, animTime, dequeueIdx)
        invariant depth + Sum(SizeOf, data.dequeueEvents[..dequeueIdx]) ==
          old(depth) + Sum(SizeOf, data.dequeueEvents[..old(dequeueIdx)])
      {
        NextSize(data.dequeueEvents, dequeueIdx);
        depth := depth - data.dequeueEvents[dequeueIdx].size;
        dequeueIdx := dequeueIdx + 1;
      }
      RestIsLater(DequeueKey, data.dequeueEvents, animTime, dequeueIdx);
    }

    /** The third loop: those packets start to fly. */
    method StartFlights(data: LinkAnimationData, animTime: real)
      requires SortedBy(DequeueKey, data.inFlightStartEvents)
      requires HappenedBy(DequeueKey, data.inFlightStartEvents, animTime, inFlightStartIdx)
      modifies this`activeInFlight, this`inFlightStartIdx
      ensures Happened(DequeueKey, data.inFlightStartEvents, animTime, inFlightStartIdx)
      ensures old(inFlightStartIdx) <= inFlightStartIdx <= |data.inFlightStartEvents|
      ensures activeInFlight == old(activeInFlight) + data.inFlightStartEvents[old(inFlightStartIdx)..inFlightStartIdx]
    {
      hide SortedBy;
      while inFlightStartIdx < |data.inFlightStartEvents| && data.inFlightStartEvents[inFlightStartIdx].dequeueTime <= animTime
        invariant old(inFlightStartIdx) <= inFlightStartIdx
        invariant HappenedBy(DequeueKey, data.inFlightStartEvents, animTime, inFlightStartIdx)
        invariant activeInFlight == old(activeInFlight) + data.inFlightStartEvents[old(inFlightStartIdx)..inFlightStartIdx]
      {
        activeInFlight := activeInFlight + [data.inFlightStartEvents[inFlightStartIdx]];
        inFlightStartIdx := inFlightStartIdx + 1;
      }
      RestIsLater(DequeueKey, data.inFlightStartEvents, animTime, inFlightStartIdx);
    }

    /** The fourth loop: packets that have arrived are looked up by id and taken out. */
    method EndFlights(data: LinkAnimationData, animTime: real)
      requires SortedBy(ArriveKey, data.inFlightEndEvents)
      requires HappenedBy(ArriveKey, data.inFlightEndEvents, animTime, inFlightEndIdx)
      modifies this`activeInFlight, this`inFlightEndIdx
      ensures Happened(ArriveKey, data.inFlightEndEvents, animTime, inFlightEndIdx)
      ensures old(inFlightEndIdx) <= inFlightEndIdx <= |data.inFlightEndEvents|
      ensures activeInFlight == TakenOut(old(activeInFlight), data.inFlightEndEvents[old(inFlightEndIdx)..inFlightEndIdx])
    {
      hide SortedBy, Without, TakenOut;
      NoneTaken(activeInFlight, data.inFlightEndEvents, inFlightEndIdx);
      while inFlightEndIdx < |data.inFlightEndEvents| && data.inFlightEndEvents[inFlightEndIdx].arriveTime <= animTime
        invariant old(inFlightEndIdx) <= inFlightEndIdx
        invariant HappenedBy(ArriveKey, data.inFlightEndEvents, animTime, inFlightEndIdx)
        invariant activeInFlight == TakenOut(old(activeInFlight), data.inFlightEndEvents[old(inFlightEndIdx)..inFlightEndIdx])
      {
        var packetId := data.inFlightEndEvents[inFlightEndIdx].id;
        var removeIdx := FindId(activeInFlight, packetId);
        OneMoreTaken(old(activeInFlight), data.inFlightEndEvents, old(inFlightEndIdx), inFlightEndIdx);
        if removeIdx != -1 {
          WithoutFirst(activeInFlight, packetId, removeIdx);
          activeInFlight := activeInFlight[..removeIdx] + activeInFlight[removeIdx + 1..];
        } else {
          WithoutNone(activeInFlight, packetId);
        }
        inFlightEndIdx := inFlightEndIdx + 1;
      }
      RestIsLater(ArriveKey, data.inFlightEndEvents, animTime, inFlightEndIdx);
    }

    /** A frame: the cursor moves on to `animTime`. */
    method Advance(pkts: seq<PacketRow>, data: LinkAnimationData, animTime: real)
      requires IsDataOf(pkts, data) && Behind(data, animTime)
      modifies this
      ensures At(data, animTime)
      ensures MovesOn(data, old(activeInFlight), old(inFlightStartIdx), old(inFlightEndIdx),
                      activeInFlight, inFlightStartIdx, inFlightEndIdx)
    {
      hide IsDataOf, Sum, SortedBy, Happened, TakenOut, NeverAhead, AllFound;
      DataSorted(pkts, data);
      AddEnqueued(data, animTime);
      SubtractDequeued(data, animTime);
      StartFlights(data, animTime);
      EndFlights(data, animTime);
      HappenedInRange(EnqueueKey, data.enqueueEvents, animTime, enqueueIdx);
      HappenedInRange(DequeueKey, data.dequeueEvents, animTime, dequeueIdx);
      if NeverAhead(data.inFlightStartEvents) {
        MovesLikeSeek(data, old(activeInFlight), old(inFlightStartIdx), old(inFlightEndIdx),
                      activeInFlight, inFlightStartIdx, inFlightEndIdx);
        SamePackets(pkts, data);
        NeverAheadPermuted(data.inFlightStartEvents, pkts);
        FoundAt(pkts, data, animTime, inFlightStartIdx, inFlightEndIdx);
      }
    }
  }

  lemma SamePackets(pkts: seq<PacketRow>, data: LinkAnimationData)
    requires IsDataOf(pkts, data)
    ensures multiset(pkts) == multiset(data.inFlightStartEvents)
  {
  }

  lemma HappenedInRange(key: PacketRow -> real, s: seq<PacketRow>, t: real, n: nat)
    requires Happened(key, s, t, n)
    ensures n <= |s|
  {
  }

  lemma DataSorted(pkts: seq<PacketRow>, data: LinkAnimationData)
    requires IsDataOf(pkts, data)
    ensures SortedBy(EnqueueKey, data.enqueueEvents) && SortedBy(DequeueKey, data.dequeueEvents)
    ensures SortedBy(DequeueKey, data.inFlightStartEvents) && SortedBy(ArriveKey, data.inFlightEndEvents)
  {
  }

  lemma NextSize(s: seq<PacketRow>, i: nat)
    requires i < |s|
    ensures Sum(SizeOf, s[..i + 1]) == Sum(SizeOf, s[..i]) + s[i].size
  {
    assert s[..i + 1][..i] == s[..i];
  }

  /** Where a loop over a sorted list stops, the rest lies in the future. */
  lemma RestIsLater(key: PacketRow -> real, s: seq<PacketRow>, t: real, n: nat)
    requires SortedBy(key, s) && HappenedBy(key, s, t, n) && (n < |s| ==> key(s[n]) > t)
    ensures Happened(key, s, t, n)
  {
  }

  method FindId(s: seq<PacketRow>, id: int) returns (i: int)
    ensures -1 <= i < |s|
    ensures i >= 0 ==> s[i].id == id && forall j :: 0 <= j < i ==> s[j].id != id
    ensures i == -1 ==> forall j :: 0 <= j < |s| ==> s[j].id != id
  {
    i := 0;
    while i < |s|
      invariant 0 <= i <= |s|
      invariant forall j :: 0 <= j < i ==> s[j].id != id
    {
      if s[i].id == id {
        return;
      }
      i := i + 1;
    }
    i := -1;
  }

  // ---------- what the cursor means ----------

  lemma {:induction false} ChangeIsDifference(pkts: seq<PacketRow>, entered: PacketRow -> int, left: PacketRow -> int, t: real)
    requires forall p :: entered(p) == if p.enqueueTime <= t then p.size else 0
    requires forall p :: left(p) == if p.dequeueTime <= t then p.size else 0
    ensures Change(pkts, UpTo(t), false) == Sum(entered, pkts) - Sum(left, pkts)
    decreases |pkts|
  {
    if pkts != [] { ChangeIsDifference(pkts[..|pkts| - 1], entered, left, t); }
  }

  lemma DepthMeaning(pkts: seq<PacketRow>, data: LinkAnimationData, t: real, enqueueIdx: nat, dequeueIdx: nat)
    requires IsDataOf(pkts, data)
    requires Happened(EnqueueKey, data.enqueueEvents, t, enqueueIdx) && Happened(DequeueKey, data.dequeueEvents, t, dequeueIdx)
    ensures Sum(SizeOf, data.enqueueEvents[..enqueueIdx]) - Sum(SizeOf, data.dequeueEvents[..dequeueIdx])
         == Change(pkts, UpTo(t), false)
  {
    hide Sum, Happened, Change;
    var entered := (p: PacketRow) => if EnqueueKey(p) <= t then p.size else 0;
    var left := (p: PacketRow) => if DequeueKey(p) <= t then p.size else 0;
    SumIsUpTo(EnqueueKey, pkts, data.enqueueEvents, entered, SizeOf, t, enqueueIdx);
    SumIsUpTo(DequeueKey, pkts, data.dequeueEvents, left, SizeOf, t, dequeueIdx);
    ChangeIsDifference(pkts, entered, left, t);
  }

  /** A cursor at time `t` holds the bytes enqueued minus the bytes dequeued by `t`. If no id is ever ahead of
      itself, it holds the packets that a direct seek to `t` shows in flight; with distinct ids and no arrival
      before its dequeue, these are exactly the packets dequeued by `t` and not yet arrived, in dequeue order. */
  lemma CursorMeaning(cursor: LinkAnimationCursor, pkts: seq<PacketRow>, data: LinkAnimationData, t: real)
    requires IsDataOf(pkts, data) && cursor.At(data, t)
    ensures cursor.depth == Change(pkts, UpTo(t), false)
    ensures NeverAhead(pkts) ==> cursor.activeInFlight == Sought(data, t)
    ensures Playable(pkts) ==> cursor.activeInFlight == FlightsAt(data.inFlightStartEvents, t)
  {
    hide NeverAhead, TakenOut, AllFound, IsDataOf, Sum, Change, Playable;
    DepthMeaning(pkts, data, t, cursor.enqueueIdx, cursor.dequeueIdx);
    if Playable(pkts) { PlayableIsNeverAhead(pkts); }
    if NeverAhead(pkts) {
      SamePackets(pkts, data);
      NeverAheadPermuted(pkts, data.inFlightStartEvents);
      PlacesOf(cursor, data, t);
    }
    if Playable(pkts) { SoughtFlights(pkts, data, t); }
  }

  lemma PlayableIsNeverAhead(pkts: seq<PacketRow>)
    requires Playable(pkts)
    ensures NeverAhead(pkts)
  {
    OrderedIsNeverAhead(pkts);
  }

  /** Where a cursor at time `t` stands in the lists of starts and ends. */
  lemma PlacesOf(cursor: LinkAnimationCursor, data: LinkAnimationData, t: real)
    requires cursor.At(data, t)
    ensures cursor.inFlightStartIdx == Started(data, t) && cursor.inFlightEndIdx == Ended(data, t)
  {
    PassedIs(DequeueKey, data.inFlightStartEvents, t, cursor.inFlightStartIdx);
    PassedIs(ArriveKey, data.inFlightEndEvents, t, cursor.inFlightEndIdx);
  }

  lemma SoughtFlights(pkts: seq<PacketRow>, data: LinkAnimationData, t: real)
    requires IsDataOf(pkts, data) && Playable(pkts)
    ensures Sought(data, t) == FlightsAt(data.inFlightStartEvents, t)
  {
    hide IsDataOf, Playable, Tracks, TakenOut;
    HappenedNow(pkts, data, t);
    TakenTracks(pkts, data, t, Started(data, t), Ended(data, t));
    FlightsMeaning(pkts, data, t, Started(data, t), Ended(data, t), Sought(data, t));
  }

  lemma FreshIsBehind(cursor: LinkAnimationCursor, data: LinkAnimationData, t: real)
    requires cursor.activeInFlight == [] && cursor.depth == 0
    requires cursor.enqueueIdx == cursor.dequeueIdx == cursor.inFlightStartIdx == cursor.inFlightEndIdx == 0
    ensures cursor.Behind(data, t)
  {
  }

  lemma EarlierIsBehind(cursor: LinkAnimationCursor, data: LinkAnimationData, s: real, t: real)
    requires cursor.At(data, s) && s <= t
    ensures cursor.Behind(data, t)
  {
  }

  // ---------- frames ----------

  /** All links of a trace, the link data held fixed. `shown` is false until the first frame. */
  class Animation {
    const packets: map<string, seq<PacketRow>>
    const linkAnimationData: map<string, LinkAnimationData>
    var cursors: map<string, LinkAnimationCursor>
    var shown: bool
    var time: real
    /** The times of all frames so far. */
    ghost var frames: seq<real>

    ghost predicate Prepared() {
      && packets.Keys == linkAnimationData.Keys
      && forall link :: link in packets ==> IsDataOf(packets[link], linkAnimationData[link])
    }

    ghost predicate Separate()
      reads this
    {
      && cursors.Keys == linkAnimationData.Keys
      && forall a, b :: a in cursors && b in cursors && a != b ==> cursors[a] != cursors[b]
    }

    ghost predicate Valid()
      reads this, cursors.Values
    {
      && Prepared()
      && (shown <==> frames != [])
      && (shown ==> Separate() && time == frames[|frames| - 1])
      && (shown ==> forall link :: link in cursors ==> StandsAfter(cursors[link], linkAnimationData[link], frames))
    }

    /** Depths that are the direct sums at time `t`, clamped at 0. */
    ghost predicate DirectSums(depths: map<string, int>, t: real) {
      && depths.Keys == linkAnimationData.Keys == packets.Keys
      && forall link :: link in depths ==> depths[link] == Clamp(Change(packets[link], UpTo(t), false))
    }

    constructor (packets: map<string, seq<PacketRow>>, data: map<string, LinkAnimationData>)
      requires packets.Keys == data.Keys
      requires forall link :: link in packets ==> IsDataOf(packets[link], data[link])
      ensures Valid() && frames == [] && this.packets == packets && this.linkAnimationData == data && cursors == map[]
    {
      this.packets, this.linkAnimationData := packets, data;
      cursors, shown, time, frames := map[], false, 0.0, [];
    }

    method NewCursors() returns (started: map<string, LinkAnimationCursor>)
      ensures started.Keys == linkAnimationData.Keys && forall link :: link in started ==> fresh(started[link])
      ensures forall a, b :: a in started && b in started && a != b ==> started[a] != started[b]
      ensures forall link, t :: link in started && Rebuilds(frames + [t]) ==>
        ReadyFor(started[link], linkAnimationData[link], frames, t)
    {
      hide ReadyFor;
      started := map[];
      var todo := linkAnimationData.Keys;
      while todo != {}
        invariant todo <= linkAnimationData.Keys && started.Keys == linkAnimationData.Keys - todo
        invariant forall link :: link in started ==> fresh(started[link])
        invariant forall a, b :: a in started && b in started && a != b ==> started[a] != started[b]
        invariant forall link, t :: link in started && Rebuilds(frames + [t]) ==>
          ReadyFor(started[link], linkAnimationData[link], frames, t)
        decreases todo
      {
        var link :| link in todo;
        var cursor := new LinkAnimationCursor();
        forall t | Rebuilds(frames + [t])
          ensures ReadyFor(cursor, linkAnimationData[link], frames, t)
        {
          FreshIsReady(cursor, linkAnimationData[link], frames, t);
        }
        started := started[link := cursor];
        todo := todo - {link};
      }
    }

    /** The loop over the links: every cursor moves on to `animTime`. */
    method AdvanceAll(animTime: real) returns (linkQueueDepths: map<string, int>)
      requires Prepared() && Separate()
      requires forall link :: link in cursors ==> ReadyFor(cursors[link], linkAnimationData[link], frames, animTime)
      modifies cursors.Values
      ensures forall link :: link in cursors ==> StandsAfter(cursors[link], linkAnimationData[link], frames + [animTime])
      ensures DirectSums(linkQueueDepths, animTime)
    {
      hide ReadyFor, StandsAfter, IsDataOf, Change, Clamp;
      linkQueueDepths := map[];
      var todo := linkAnimationData.Keys;
      while todo != {}
        invariant todo <= linkAnimationData.Keys && linkQueueDepths.Keys == linkAnimationData.Keys - todo
        invariant forall link :: link in linkQueueDepths ==>
          linkQueueDepths[link] == Clamp(Change(packets[link], UpTo(animTime), false))
        invariant forall link :: link in todo ==> ReadyFor(cursors[link], linkAnimationData[link], frames, animTime)
        invariant forall link :: link in cursors && link !in todo ==>
          StandsAfter(cursors[link], linkAnimationData[link], frames + [animTime])
        decreases todo
      {
        var link :| link in todo;
        var cursor := cursors[link];
        assert link in cursors && cursor in cursors.Values;
        AdvanceOne(cursor, packets[link], linkAnimationData[link], frames, animTime);
        linkQueueDepths := linkQueueDepths[link := Clamp(cursor.depth)];
        todo := todo - {link};
      }
    }

    /** One frame. The cursors are started again when there are none, when time goes backwards, or at time 0. */
    method Frame(animTime: real) returns (linkQueueDepths: map<string, int>)
      requires Valid()
      modifies this`cursors, this`shown, this`time, this`frames, cursors.Values
      ensures Valid() && frames == old(frames) + [animTime]
      ensures forall cursor :: cursor in cursors.Values ==> cursor in old(cursors.Values) || fresh(cursor)
      ensures DirectSums(linkQueueDepths, animTime)
    {
      hide ReadyFor, StandsAfter, Prepared, DirectSums;
      RebuildRule(frames, animTime);
      var shouldRebuild := !shown || animTime < time || animTime == 0.0;
      if shouldRebuild {
        var started := NewCursors();
        cursors := started;
      } else {
        forall link | link in cursors
          ensures ReadyFor(cursors[link], linkAnimationData[link], frames, animTime)
        {
          StandingIsReady(cursors[link], linkAnimationData[link], frames, animTime);
        }
      }
      linkQueueDepths := AdvanceAll(animTime);
      shown, time, frames := true, animTime, frames + [animTime];
    }

    /** What a frame at time `t` shows of a link. */
    ghost predicate Shows(link: string, t: real)
      requires link in cursors && link in packets && link in linkAnimationData
      reads this, cursors.Values
    {
      && cursors[link].depth == Change(packets[link], UpTo(t), false)
      && (NeverAhead(packets[link]) ==> cursors[link].activeInFlight == Sought(linkAnimationData[link], t))
      && (Playable(packets[link]) ==> cursors[link].activeInFlight == FlightsAt(linkAnimationData[link].inFlightStartEvents, t))
    }

    /** Any sequence of frames, forward and backward: in the end every link shows what it has at the last
        frame's time, and so do the depths returned. */
    method Play(times: seq<real>) returns (linkQueueDepths: map<string, int>)
      requires Valid() && times != []
      modifies this`cursors, this`shown, this`time, this`frames, cursors.Values
      ensures Valid() && frames == old(frames) + times
      ensures forall cursor :: cursor in cursors.Values ==> cursor in old(cursors.Values) || fresh(cursor)
      ensures shown && time == times[|times| - 1] && DirectSums(linkQueueDepths, time)
      ensures cursors.Keys == linkAnimationData.Keys == packets.Keys && forall link :: link in cursors ==> Shows(link, time)
    {
      hide DirectSums, StandsAfter, IsDataOf, Shows;
      linkQueueDepths := Frame(times[0]);
      var i := 1;
      while i < |times|
        invariant 1 <= i <= |times| && Valid() && frames == old(frames) + times[..i]
        invariant forall cursor :: cursor in cursors.Values ==> cursor in old(cursors.Values) || fresh(cursor)
        invariant DirectSums(linkQueueDepths, times[i - 1])
      {
        linkQueueDepths := Frame(times[i]);
        assert times[..i + 1] == times[..i] + [times[i]];
        i := i + 1;
      }
      assert times[..i] == times;
      forall link | link in cursors
        ensures Shows(link, time)
      {
        ShownNow(link);
      }
    }

    lemma ShownNow(link: string)
      requires Valid() && shown && link in cursors
      ensures link in packets && link in linkAnimationData && Shows(link, time)
    {
      hide IsDataOf, Change, Playable, NeverAhead, FlightsAt, Sought;
      CursorMeaning(cursors[link], packets[link], linkAnimationData[link], time);
    }
  }

  /** For well-timed packets the depth a frame shows is the direct sum that the queue graph also shows. */
  lemma DepthIsQueued(pkts: seq<PacketRow>, t: real)
    requires WellTimed(pkts)
    ensures Clamp(Change(pkts, UpTo(t), false)) == Queued(pkts, t, false)
  {
    QueueGraph.ChangeIsQueued(pkts, t, false);
  }

  /** Where a cursor is before a frame at `t`: at the start if cursors are started again, else where the frames so far left it. */
  ghost predicate SetOut(cursor: LinkAnimationCursor, data: LinkAnimationData, frames: seq<real>, t: real)
    reads cursor
  {
    if Rebuilds(frames + [t]) then
      cursor.activeInFlight == [] && cursor.inFlightStartIdx == 0 == cursor.inFlightEndIdx
    else
      var s := frames[|frames| - 1];
      && cursor.activeInFlight == FlightsAfter(data, frames)
      && cursor.inFlightStartIdx == Started(data, s) && cursor.inFlightEndIdx == Ended(data, s)
  }

  /** A cursor that can be moved on to `t`. */
  ghost predicate ReadyFor(cursor: LinkAnimationCursor, data: LinkAnimationData, frames: seq<real>, t: real)
    reads cursor
  {
    cursor.Behind(data, t) && SetOut(cursor, data, frames, t)
  }

  /** A cursor at the last of these frames, with the packets in flight that they leave. */
  ghost predicate StandsAfter(cursor: LinkAnimationCursor, data: LinkAnimationData, frames: seq<real>)
    reads cursor
  {
    frames != [] && cursor.At(data, frames[|frames| - 1]) && cursor.activeInFlight == FlightsAfter(data, frames)
  }

  lemma RebuildRule(frames: seq<real>, t: real)
    ensures Rebuilds(frames + [t]) <==> frames == [] || t < frames[|frames| - 1] || t == 0.0
  {
    var all := frames + [t];
    assert all[|all| - 1] == t && (frames != [] ==> all[|all| - 2] == frames[|frames| - 1]);
  }

  lemma FreshIsReady(cursor: LinkAnimationCursor, data: LinkAnimationData, frames: seq<real>, t: real)
    requires cursor.activeInFlight == [] && cursor.depth == 0 && Rebuilds(frames + [t])
    requires cursor.enqueueIdx == cursor.dequeueIdx == cursor.inFlightStartIdx == cursor.inFlightEndIdx == 0
    ensures ReadyFor(cursor, data, frames, t)
  {
    FreshIsBehind(cursor, data, t);
  }

  lemma StandingIsReady(cursor: LinkAnimationCursor, data: LinkAnimationData, frames: seq<real>, t: real)
    requires StandsAfter(cursor, data, frames) && !Rebuilds(frames + [t])
    ensures ReadyFor(cursor, data, frames, t)
  {
    hide LinkAnimationCursor.At, LinkAnimationCursor.Behind, FlightsAfter, Started, Ended;
    RebuildRule(frames, t);
    EarlierIsBehind(cursor, data, frames[|frames| - 1], t);
    PlacesOf(cursor, data, frames[|frames| - 1]);
  }

  /** One cursor's part of a frame. */
  method AdvanceOne(cursor: LinkAnimationCursor, pkts: seq<PacketRow>, data: LinkAnimationData, ghost frames: seq<real>, t: real)
    requires IsDataOf(pkts, data) && ReadyFor(cursor, data, frames, t)
    modifies cursor
    ensures StandsAfter(cursor, data, frames + [t]) && cursor.depth == Change(pkts, UpTo(t), false)
  {
    hide IsDataOf, LinkAnimationCursor.Behind, LinkAnimationCursor.At, FlightsAfter, MovesOn, Started, Ended, Change, NeverAhead, Playable;
    cursor.Advance(pkts, data, t);
    PlacesOf(cursor, data, t);
    FlightsMoved(data, frames, t, cursor.activeInFlight, cursor.inFlightStartIdx, cursor.inFlightEndIdx);
    CursorMeaning(cursor, pkts, data, t);
  }

  /** One frame more, from the place of the last one or from the start. */
  lemma FlightsMoved(data: LinkAnimationData, frames: seq<real>, t: real, after: seq<PacketRow>, started: nat, ended: nat)
    requires started == Started(data, t) && ended == Ended(data, t)
    requires
      if Rebuilds(frames + [t]) then MovesOn(data, [], 0, 0, after, started, ended)
      else
        var s := frames[|frames| - 1];
        MovesOn(data, FlightsAfter(data, frames), Started(data, s), Ended(data, s), after, started, ended)
    ensures after == FlightsAfter(data, frames + [t])
  {
    hide TakenOut, Started, Ended;
    var all := frames + [t];
    assert all[..|all| - 1] == frames;
    if Rebuilds(all) {
      assert [] + data.inFlightStartEvents[0..started] == data.inFlightStartEvents[..started];
    } else {
      assert all[|all| - 2] == frames[|frames| - 1];
    }
  }

  /** Playing through any frames or seeking straight to the last one: every link's cursor is the same, field by
      field, but for the packets in flight, which are those of `FlightsAfter` and `Sought`. They too are the same
      if no id is ever ahead of itself, and only then are they for all frames (`Flights.TracelessIffNeverAhead`). */
  method PlayOrSeek(packets: map<string, seq<PacketRow>>, data: map<string, LinkAnimationData>, times: seq<real>)
    returns (played: Animation, sought: Animation)
    requires packets.Keys == data.Keys && times != []
    requires forall link :: link in packets ==> IsDataOf(packets[link], data[link])
    ensures played.cursors.Keys == sought.cursors.Keys == packets.Keys
    ensures forall link :: link in packets ==>
      && SameButFlights(played.cursors[link], sought.cursors[link])
      && played.cursors[link].activeInFlight == FlightsAfter(data[link], times)
      && sought.cursors[link].activeInFlight == Sought(data[link], times[|times| - 1])
      && (NeverAhead(packets[link]) ==> played.cursors[link].activeInFlight == sought.cursors[link].activeInFlight)
  {
    hide StandsAfter, IsDataOf, NeverAhead, SameButFlights, FlightsAfter, Sought, Animation.DirectSums, Animation.Shows;
    played := new Animation(packets, data);
    var shownDepths := played.Play(times);
    sought := new Animation(packets, data);
    var soughtDepths := sought.Frame(times[|times| - 1]);
    assert played.frames == times && sought.frames == [times[|times| - 1]];
    forall link | link in packets
      ensures SameButFlights(played.cursors[link], sought.cursors[link])
      ensures played.cursors[link].activeInFlight == FlightsAfter(data[link], times)
      ensures sought.cursors[link].activeInFlight == Sought(data[link], times[|times| - 1])
      ensures NeverAhead(packets[link]) ==> played.cursors[link].activeInFlight == sought.cursors[link].activeInFlight
    {
      PlayedAndSought(played.cursors[link], sought.cursors[link], packets[link], data[link], times);
    }
  }

  lemma PlayedAndSought(played: LinkAnimationCursor, sought: LinkAnimationCursor, pkts: seq<PacketRow>,
                        data: LinkAnimationData, times: seq<real>)
    requires IsDataOf(pkts, data) && StandsAfter(played, data, times) && StandsAfter(sought, data, [times[|times| - 1]])
    ensures SameButFlights(played, sought)
    ensures played.activeInFlight == FlightsAfter(data, times) && sought.activeInFlight == Sought(data, times[|times| - 1])
    ensures NeverAhead(pkts) ==> played.activeInFlight == sought.activeInFlight
  {
    hide LinkAnimationCursor.At, IsDataOf, NeverAhead, FlightsAfter, Sought;
    SoughtIsOneFrame(data, times[|times| - 1]);
    HistoryIsForgotten(played, sought, pkts, data, times[|times| - 1]);
  }

  lemma SoughtIsOneFrame(data: LinkAnimationData, t: real)
    ensures FlightsAfter(data, [t]) == Sought(data, t)
  {
  }

  ghost predicate SameButFlights(a: LinkAnimationCursor, b: LinkAnimationCursor)
    reads a, b
  {
    && a.depth == b.depth && a.enqueueIdx == b.enqueueIdx && a.dequeueIdx == b.dequeueIdx
    && a.inFlightStartIdx == b.inFlightStartIdx && a.inFlightEndIdx == b.inFlightEndIdx
  }

  /** Any two cursors at the same time agree on everything a frame shows: history leaves no trace. For the
      packets in flight this is so if no id is ever ahead of itself. */
  lemma HistoryIsForgotten(a: LinkAnimationCursor, b: LinkAnimationCursor, pkts: seq<PacketRow>, data: LinkAnimationData, t: real)
    requires IsDataOf(pkts, data) && a.At(data, t) && b.At(data, t)
    ensures SameButFlights(a, b)
    ensures NeverAhead(pkts) ==> a.activeInFlight == b.activeInFlight
  {
    hide Sum, NeverAhead, Playable, Sought;
    CursorMeaning(a, pkts, data, t);
    CursorMeaning(b, pkts, data, t);
    SamePlace(EnqueueKey, data.enqueueEvents, t, a.enqueueIdx, b.enqueueIdx);
    SamePlace(DequeueKey, data.dequeueEvents, t, a.dequeueIdx, b.dequeueIdx);
    SamePlace(DequeueKey, data.inFlightStartEvents, t, a.inFlightStartIdx, b.inFlightStartIdx);
    SamePlace(ArriveKey, data.inFlightEndEvents, t, a.inFlightEndIdx, b.inFlightEndIdx);
  }

  /** The simplest link with an id ahead of itself, one packet that arrives before its dequeue: with a frame between the two times it stays in
      flight for ever, without one it is never shown. */
  method ArrivesBeforeDequeue(p: PacketRow, between: real) returns (stepped: LinkAnimationCursor, sought: LinkAnimationCursor)
    requires p.arriveTime <= between < p.dequeueTime
    ensures var data := LinkAnimationData([p], [p], [p], [p]);
      IsDataOf([p], data) && stepped.At(data, p.dequeueTime) && sought.At(data, p.dequeueTime)
    ensures stepped.activeInFlight == [p] && sought.activeInFlight == []
  {
    hide TakenOut, Without, IsDataOf, LinkAnimationCursor.At, LinkAnimationCursor.Behind, NeverAhead;
    var data := LinkAnimationData([p], [p], [p], [p]);
    OnePacket(p);
    stepped := new LinkAnimationCursor();
    FreshIsBehind(stepped, data, between);
    stepped.Advance([p], data, between);
    OnePacketAt(stepped, p, between);
    assert stepped.activeInFlight == [];
    EarlierIsBehind(stepped, data, between, p.dequeueTime);
    stepped.Advance([p], data, p.dequeueTime);
    OnePacketAt(stepped, p, p.dequeueTime);
    sought := new LinkAnimationCursor();
    FreshIsBehind(sought, data, p.dequeueTime);
    sought.Advance([p], data, p.dequeueTime);
    OnePacketAt(sought, p, p.dequeueTime);
  }

  lemma OnePacket(p: PacketRow)
    ensures var data := LinkAnimationData([p], [p], [p], [p]); IsDataOf([p], data)
    ensures TakenOut([] + [p][0..0], [p][0..1]) == []
    ensures TakenOut([] + [p][0..1], [p][1..1]) == [p]
    ensures TakenOut([] + [p][0..1], [p][0..1]) == []
  {
    assert [p][0..1] == [p] && [p][1..1] == [];
  }

  lemma OnePacketAt(cursor: LinkAnimationCursor, p: PacketRow, t: real)
    requires cursor.At(LinkAnimationData([p], [p], [p], [p]), t)
    ensures cursor.inFlightStartIdx == if p.dequeueTime <= t then 1 else 0
    ensures cursor.inFlightEndIdx == if p.arriveTime <= t then 1 else 0
  {
    assert DequeueKey([p][0]) == p.dequeueTime && ArriveKey([p][0]) == p.arriveTime;
  }

}
