/**
  The packets in flight on a link during playback, without the cursors (the animation memo in
  frontend/app/page.tsx). Each frame starts the packets dequeued since the last one and takes out, by id,
  those that have arrived. `FlightsAfter` is what a sequence of frames leaves; it depends on the last
  frame alone, whatever the frames, exactly if no packet id is ever ahead of itself: at no time has it
  arrived more often than it was dequeued.
*/
module Flights {
  import opened Csv
  import opened Sorting

  /** The four sorted copies of a link's packets. */
  datatype LinkAnimationData = LinkAnimationData(
    enqueueEvents: seq<PacketRow>, dequeueEvents: seq<PacketRow>,
    inFlightStartEvents: seq<PacketRow>, inFlightEndEvents: seq<PacketRow>)

  function EnqueueKey(p: PacketRow): real { p.enqueueTime }

  function DequeueKey(p: PacketRow): real { p.dequeueTime }

  function ArriveKey(p: PacketRow): real { p.arriveTime }

  ghost predicate IsDataOf(pkts: seq<PacketRow>, data: LinkAnimationData) {
    && IsSorting(EnqueueKey, pkts, data.enqueueEvents) && IsSorting(DequeueKey, pkts, data.dequeueEvents)
    && IsSorting(DequeueKey, pkts, data.inFlightStartEvents) && IsSorting(ArriveKey, pkts, data.inFlightEndEvents)
  }

  /** What the CSV files of a clocked run guarantee. */
  predicate Playable(pkts: seq<PacketRow>) {
    && (forall i :: 0 <= i < |pkts| ==> pkts[i].dequeueTime <= pkts[i].arriveTime)
    && (forall i, j :: 0 <= i < j < |pkts| ==> pkts[i].id != pkts[j].id)
  }

  /** Whether packets are playable does not depend on their order. */
  lemma PlayablePermuted(pkts: seq<PacketRow>, data: LinkAnimationData)
    requires IsDataOf(pkts, data)
    ensures Playable(pkts) <==> Playable(data.inFlightStartEvents)
  {
    if Playable(pkts) { PlayableToo(pkts, data.inFlightStartEvents); }
    if Playable(data.inFlightStartEvents) { PlayableToo(data.inFlightStartEvents, pkts); }
  }

  lemma PlayableToo(a: seq<PacketRow>, b: seq<PacketRow>)
    requires multiset(a) == multiset(b) && Playable(a)
    ensures Playable(b)
  {
    PermutedIds(a, b);
    forall i | 0 <= i < |b|
      ensures b[i].dequeueTime <= b[i].arriveTime
    {
      assert b[i] in a;
    }
  }

  // ---------- what is in flight at time t ----------

  function SizeOf(p: PacketRow): int { p.size }

  predicate InFlight(p: PacketRow, t: real) {
    p.dequeueTime <= t < p.arriveTime
  }

  /** The packets in flight at `t`, in the order of `s`. */
  function FlightsAt(s: seq<PacketRow>, t: real): seq<PacketRow> {
    if s == [] then []
    else FlightsAt(s[..|s| - 1], t) + if InFlight(s[|s| - 1], t) then [s[|s| - 1]] else []
  }

  /** A packet is shown in flight exactly from its dequeue until its arrival. */
  lemma {:induction false} FlightsMembers(s: seq<PacketRow>, t: real)
    ensures forall p :: p in FlightsAt(s, t) <==> p in s && InFlight(p, t)
    decreases |s|
  {
    if s != [] {
      assert s == s[..|s| - 1] + [s[|s| - 1]];
      FlightsMembers(s[..|s| - 1], t);
    }
  }

  /** By `t`, exactly the first `n` events of a sorted list have happened. */
  ghost predicate Happened(key: PacketRow -> real, s: seq<PacketRow>, t: real, n: nat) {
    && n <= |s|
    && (forall i :: 0 <= i < n ==> key(s[i]) <= t)
    && (forall i :: n <= i < |s| ==> key(s[i]) > t)
  }

  /** The first `n` events of a list have happened by `t`. */
  ghost predicate HappenedBy(key: PacketRow -> real, s: seq<PacketRow>, t: real, n: nat) {
    n <= |s| && forall i :: 0 <= i < n ==> key(s[i]) <= t
  }

  lemma SamePlace(key: PacketRow -> real, s: seq<PacketRow>, t: real, m: nat, n: nat)
    requires Happened(key, s, t, m) && Happened(key, s, t, n)
    ensures m == n
  {
    assert m < |s| ==> key(s[m]) > t;
    assert n < |s| ==> key(s[n]) > t;
  }

  // ---------- taking packets out by their id ----------

  /** The first packet with this id taken out, if there is one. */
  function Without(flying: seq<PacketRow>, id: int): seq<PacketRow> {
    if flying == [] then []
    else if flying[0].id == id then flying[1..]
    else [flying[0]] + Without(flying[1..], id)
  }

  /** For each ended packet in turn, the first one with its id taken out. */
  function TakenOut(flying: seq<PacketRow>, ended: seq<PacketRow>): seq<PacketRow> {
    if ended == [] then flying else Without(TakenOut(flying, ended[..|ended| - 1]), ended[|ended| - 1].id)
  }

  lemma {:induction false} WithoutNone(flying: seq<PacketRow>, id: int)
    requires forall j :: 0 <= j < |flying| ==> flying[j].id != id
    ensures Without(flying, id) == flying
    decreases |flying|
  {
    if flying != [] { WithoutNone(flying[1..], id); }
  }

  lemma {:induction false} WithoutFirst(flying: seq<PacketRow>, id: int, i: nat)
    requires i < |flying| && flying[i].id == id && forall j :: 0 <= j < i ==> flying[j].id != id
    ensures Without(flying, id) == flying[..i] + flying[i + 1..]
    decreases |flying|
  {
    if i > 0 {
      WithoutFirst(flying[1..], id, i - 1);
      assert flying[1..][..i - 1] == flying[1..i] && flying[1..][i..] == flying[i + 1..];
      assert [flying[0]] + flying[1..i] == flying[..i];
    }
  }

  lemma NoneTaken(flying: seq<PacketRow>, ends: seq<PacketRow>, m: nat)
    requires m <= |ends|
    ensures TakenOut(flying, ends[m..m]) == flying
  {
  }

  lemma OneMoreTaken(flying: seq<PacketRow>, ends: seq<PacketRow>, m: nat, n: nat)
    requires m <= n < |ends|
    ensures TakenOut(flying, ends[m..n + 1]) == Without(TakenOut(flying, ends[m..n]), ends[n].id)
  {
    assert ends[m..n + 1][..n - m] == ends[m..n];
  }

  /** Where the first packet with this id is, -1 if there is none. */
  lemma {:induction false} IndexOfId(flying: seq<PacketRow>, id: int) returns (i: int)
    ensures -1 <= i < |flying|
    ensures i >= 0 ==> flying[i].id == id && forall j :: 0 <= j < i ==> flying[j].id != id
    ensures i == -1 ==> forall j :: 0 <= j < |flying| ==> flying[j].id != id
    decreases |flying|
  {
    if flying == [] {
      i := -1;
    } else if flying[0].id == id {
      i := 0;
    } else {
      var k := IndexOfId(flying[1..], id);
      i := if k == -1 then -1 else k + 1;
    }
  }

  /** Taking out two lists of ended packets, one after the other. */
  lemma {:induction false} TakenTwice(flying: seq<PacketRow>, e: seq<PacketRow>, f: seq<PacketRow>)
    ensures TakenOut(flying, e + f) == TakenOut(TakenOut(flying, e), f)
    decreases |f|
  {
    if f == [] {
      assert e + f == e;
    } else {
      assert (e + f)[..|e + f| - 1] == e + f[..|f| - 1];
      TakenTwice(flying, e, f[..|f| - 1]);
    }
  }

  // ---------- counting ids ----------

  function IsId(id: int): PacketRow -> int {
    (p: PacketRow) => if p.id == id then 1 else 0
  }

  /** How many packets of a list have this id. */
  function Count(s: seq<PacketRow>, id: int): int {
    Sum(IsId(id), s)
  }

  function IsIdBy(id: int, key: PacketRow -> real, t: real): PacketRow -> int {
    (p: PacketRow) => if key(p) <= t then IsId(id)(p) else 0
  }

  /** How many packets with this id have been dequeued by `t`, and have arrived by `t`. */
  function Dequeued(pkts: seq<PacketRow>, id: int, t: real): int {
    Sum(IsIdBy(id, DequeueKey, t), pkts)
  }

  function Arrived(pkts: seq<PacketRow>, id: int, t: real): int {
    Sum(IsIdBy(id, ArriveKey, t), pkts)
  }

  /** No id is ever ahead of itself: by no time has it arrived more often than it was dequeued. */
  ghost predicate NeverAhead(pkts: seq<PacketRow>) {
    forall id, t :: Arrived(pkts, id, t) <= Dequeued(pkts, id, t)
  }

  lemma NeverAheadPermuted(a: seq<PacketRow>, b: seq<PacketRow>)
    requires multiset(a) == multiset(b) && NeverAhead(a)
    ensures NeverAhead(b)
  {
    hide Sum;
    forall id, t
      ensures Arrived(b, id, t) <= Dequeued(b, id, t)
    {
      SumPermuted(IsIdBy(id, ArriveKey, t), a, b);
      SumPermuted(IsIdBy(id, DequeueKey, t), a, b);
      assert Arrived(a, id, t) <= Dequeued(a, id, t);
    }
  }

  /** If no packet arrives before it is dequeued, no id is ever ahead, repeated or not. */
  lemma OrderedIsNeverAhead(pkts: seq<PacketRow>)
    requires forall i :: 0 <= i < |pkts| ==> pkts[i].dequeueTime <= pkts[i].arriveTime
    ensures NeverAhead(pkts)
  {
    forall id, t
      ensures Arrived(pkts, id, t) <= Dequeued(pkts, id, t)
    {
      OrderedCounts(pkts, id, t);
    }
  }

  lemma {:induction false} OrderedCounts(pkts: seq<PacketRow>, id: int, t: real)
    requires forall i :: 0 <= i < |pkts| ==> pkts[i].dequeueTime <= pkts[i].arriveTime
    ensures Arrived(pkts, id, t) <= Dequeued(pkts, id, t)
    decreases |pkts|
  {
    if pkts != [] {
      OrderedCounts(pkts[..|pkts| - 1], id, t);
      var p := pkts[|pkts| - 1];
      assert p.dequeueTime <= p.arriveTime;
      assert IsIdBy(id, ArriveKey, t)(p) <= IsIdBy(id, DequeueKey, t)(p);
    }
  }

  /** The weights of the first events of a sorting, summed, are those of the packets whose key is at most `t`. */
  lemma {:induction false} SumHappened(f: PacketRow -> int, weight: PacketRow -> int, key: PacketRow -> real,
                                       s: seq<PacketRow>, t: real, n: nat, m: nat)
    requires Happened(key, s, t, n) && m <= |s|
    requires forall p :: f(p) == if key(p) <= t then weight(p) else 0
    ensures Sum(f, s[..m]) == Sum(weight, s[..if m < n then m else n])
    decreases m
  {
    if m > 0 {
      SumHappened(f, weight, key, s, t, n, m - 1);
      assert s[..m][..m - 1] == s[..m - 1];
    }
  }

  lemma SumIsUpTo(key: PacketRow -> real, pkts: seq<PacketRow>, s: seq<PacketRow>, f: PacketRow -> int,
                  weight: PacketRow -> int, t: real, n: nat)
    requires multiset(s) == multiset(pkts) && Happened(key, s, t, n)
    requires forall p :: f(p) == if key(p) <= t then weight(p) else 0
    ensures Sum(weight, s[..n]) == Sum(f, pkts)
  {
    SumHappened(f, weight, key, s, t, n, |s|);
    assert s[..|s|] == s;
    SumPermuted(f, s, pkts);
  }

  lemma {:induction false} CountNotNegative(s: seq<PacketRow>, id: int)
    ensures Count(s, id) >= 0
    ensures Count(s, id) == 0 ==> forall i :: 0 <= i < |s| ==> s[i].id != id
    decreases |s|
  {
    if s != [] { CountNotNegative(s[..|s| - 1], id); }
  }

  lemma CountHead(s: seq<PacketRow>, id: int)
    requires s != []
    ensures Count(s, id) == (if s[0].id == id then 1 else 0) + Count(s[1..], id)
  {
    assert s == [s[0]] + s[1..] && [s[0]][..0] == [];
    SumConcat(IsId(id), [s[0]], s[1..]);
  }

  /** Taking out one packet by its id leaves the other ids alone, and what follows it. */
  lemma {:induction false} WithoutCounts(flying: seq<PacketRow>, id: int, other: int)
    ensures Count(Without(flying, id), other) == Count(flying, other) - if other == id && Count(flying, id) > 0 then 1 else 0
    decreases |flying|
  {
    hide Count;
    if flying == [] {
      CountNotNegative(flying, id);
      NothingCounted(other);
      NothingCounted(id);
    } else {
      CountHead(flying, id);
      CountHead(flying, other);
      CountNotNegative(flying[1..], id);
      if flying[0].id != id {
        WithoutCounts(flying[1..], id, other);
        var rest := [flying[0]] + Without(flying[1..], id);
        CountHead(rest, other);
        assert rest[1..] == Without(flying[1..], id);
      }
    }
  }

  lemma NothingCounted(id: int)
    ensures Count([], id) == 0
  {
  }

  lemma {:induction false} WithoutInFront(flying: seq<PacketRow>, id: int, later: seq<PacketRow>)
    requires Count(flying, id) > 0
    ensures Without(flying + later, id) == Without(flying, id) + later
    decreases |flying|
  {
    hide Count;
    if flying == [] {
      NothingCounted(id);
    } else {
      CountHead(flying, id);
      assert (flying + later)[1..] == flying[1..] + later;
      if flying[0].id != id { WithoutInFront(flying[1..], id, later); }
    }
  }

  /** Every ended packet finds its id. */
  ghost predicate AllFound(started: seq<PacketRow>, ended: seq<PacketRow>) {
    forall id :: Count(ended, id) <= Count(started, id)
  }

  lemma CountLast(s: seq<PacketRow>, id: int)
    requires s != []
    ensures Count(s, id) == Count(s[..|s| - 1], id) + if s[|s| - 1].id == id then 1 else 0
  {
  }

  lemma FrontFound(started: seq<PacketRow>, ended: seq<PacketRow>)
    requires AllFound(started, ended) && ended != []
    ensures AllFound(started, ended[..|ended| - 1])
    ensures Count(ended[..|ended| - 1], ended[|ended| - 1].id) < Count(started, ended[|ended| - 1].id)
  {
    hide Count;
    var last := ended[|ended| - 1].id;
    CountLast(ended, last);
    assert Count(ended, last) <= Count(started, last);
    forall id
      ensures Count(ended[..|ended| - 1], id) <= Count(started, id)
    {
      CountLast(ended, id);
      assert Count(ended, id) <= Count(started, id);
    }
  }

  /** Then each id is left as often as it started more often than it ended, and packets that start later stay behind. */
  lemma {:induction false} TakenCounts(started: seq<PacketRow>, ended: seq<PacketRow>, id: int)
    requires AllFound(started, ended)
    ensures Count(TakenOut(started, ended), id) == Count(started, id) - Count(ended, id)
    decreases |ended|
  {
    hide Count, AllFound;
    if ended == [] {
      NothingCounted(id);
    } else {
      var (front, last) := (ended[..|ended| - 1], ended[|ended| - 1].id);
      FrontFound(started, ended);
      TakenCounts(started, front, id);
      TakenCounts(started, front, last);
      CountLast(ended, id);
      WithoutCounts(TakenOut(started, front), last, id);
    }
  }

  lemma {:induction false} TakenInFront(started: seq<PacketRow>, ended: seq<PacketRow>, later: seq<PacketRow>)
    requires AllFound(started, ended)
    ensures TakenOut(started + later, ended) == TakenOut(started, ended) + later
    decreases |ended|
  {
    hide Count, AllFound;
    if ended != [] {
      var (front, last) := (ended[..|ended| - 1], ended[|ended| - 1].id);
      FrontFound(started, ended);
      TakenInFront(started, front, later);
      TakenCounts(started, front, last);
      WithoutInFront(TakenOut(started, front), last, later);
    }
  }

  /** Whether or not they are found: at most one packet goes per ended one, and only with its id. */
  lemma {:induction false} TakenAtMost(started: seq<PacketRow>, ended: seq<PacketRow>, id: int)
    ensures Count(TakenOut(started, ended), id) >= Count(started, id) - Count(ended, id)
    decreases |ended|
  {
    hide Count;
    if ended == [] {
      NothingCounted(id);
    } else {
      var (front, last) := (ended[..|ended| - 1], ended[|ended| - 1].id);
      TakenAtMost(started, front, id);
      CountLast(ended, id);
      WithoutCounts(TakenOut(started, front), last, id);
    }
  }

  // ---------- frames ----------

  /** Where the loop over a sorted list stops at time `t`. */
  function Passed(key: PacketRow -> real, s: seq<PacketRow>, t: real): (n: nat)
    ensures n <= |s|
  {
    if s == [] || key(s[0]) > t then 0 else 1 + Passed(key, s[1..], t)
  }

  lemma {:induction false} PassedGrows(key: PacketRow -> real, s: seq<PacketRow>, t: real, u: real)
    requires t <= u
    ensures Passed(key, s, t) <= Passed(key, s, u)
    decreases |s|
  {
    if s != [] { PassedGrows(key, s[1..], t, u); }
  }

  lemma {:induction false} PassedIs(key: PacketRow -> real, s: seq<PacketRow>, t: real, n: nat)
    requires Happened(key, s, t, n)
    ensures Passed(key, s, t) == n
    decreases |s|
  {
    if s != [] {
      assert n > 0 ==> key(s[0]) <= t;
      if n > 0 { PassedIs(key, s[1..], t, n - 1); }
    }
  }

  lemma {:induction false} PassedHappened(key: PacketRow -> real, s: seq<PacketRow>, t: real)
    requires SortedBy(key, s)
    ensures Happened(key, s, t, Passed(key, s, t))
    decreases |s|
  {
    if s != [] && key(s[0]) <= t {
      PassedHappened(key, s[1..], t);
      var n := Passed(key, s[1..], t);
      assert forall i :: 0 < i < |s| ==> s[i] == s[1..][i - 1];
    } else {
      assert forall i :: 0 < i < |s| ==> key(s[0]) <= key(s[i]);
    }
  }

  function Started(data: LinkAnimationData, t: real): nat {
    Passed(DequeueKey, data.inFlightStartEvents, t)
  }

  function Ended(data: LinkAnimationData, t: real): nat {
    Passed(ArriveKey, data.inFlightEndEvents, t)
  }

  /** A cursor moved on from one pair of places to another. */
  ghost predicate MovesOn(data: LinkAnimationData, before: seq<PacketRow>, started0: nat, ended0: nat,
                          after: seq<PacketRow>, started: nat, ended: nat)
  {
    && started0 <= started <= |data.inFlightStartEvents| && ended0 <= ended <= |data.inFlightEndEvents|
    && after == TakenOut(before + data.inFlightStartEvents[started0..started], data.inFlightEndEvents[ended0..ended])
  }

  /** The packets in flight that a frame at `t` leaves when the cursors are started again. */
  function Sought(data: LinkAnimationData, t: real): seq<PacketRow> {
    TakenOut(data.inFlightStartEvents[..Started(data, t)], data.inFlightEndEvents[..Ended(data, t)])
  }

  /** Cursors are started again at the first frame, when time goes backwards, and at time 0. */
  predicate Rebuilds(frames: seq<real>)
    requires frames != []
  {
    var t := frames[|frames| - 1];
    |frames| == 1 || t < frames[|frames| - 2] || t == 0.0
  }

  /** The packets in flight that a sequence of frames leaves. */
  function FlightsAfter(data: LinkAnimationData, frames: seq<real>): seq<PacketRow>
    requires frames != []
    decreases |frames|
  {
    var t := frames[|frames| - 1];
    if Rebuilds(frames) then Sought(data, t)
    else
      var s := frames[|frames| - 2];
      PassedGrows(DequeueKey, data.inFlightStartEvents, s, t);
      PassedGrows(ArriveKey, data.inFlightEndEvents, s, t);
      TakenOut(FlightsAfter(data, frames[..|frames| - 1]) + data.inFlightStartEvents[Started(data, s)..Started(data, t)],
               data.inFlightEndEvents[Ended(data, s)..Ended(data, t)])
  }

  /** The first frame, a frame back in time and a frame at 0 forget all frames before; any other frame goes on
      from where the one before it was. */
  lemma StartsAgain(data: LinkAnimationData, frames: seq<real>, t: real)
    ensures frames == [] || t < frames[|frames| - 1] || t == 0.0 ==> FlightsAfter(data, frames + [t]) == Sought(data, t)
    ensures frames != [] && t >= frames[|frames| - 1] && t != 0.0 ==>
      var s := frames[|frames| - 1];
      MovesOn(data, FlightsAfter(data, frames), Started(data, s), Ended(data, s),
              FlightsAfter(data, frames + [t]), Started(data, t), Ended(data, t))
  {
    hide TakenOut, Started, Ended;
    var all := frames + [t];
    assert all[..|all| - 1] == frames && all[|all| - 1] == t;
    if frames != [] {
      var s := frames[|frames| - 1];
      assert all[|all| - 2] == s;
      if t >= s { PlacesGrow(data, s, t); }
    }
  }

  // ---------- when frames leave no trace ----------

  lemma CountsAre(pkts: seq<PacketRow>, data: LinkAnimationData, t: real, started: nat, ended: nat, id: int)
    requires IsDataOf(pkts, data)
    requires Happened(DequeueKey, data.inFlightStartEvents, t, started) && Happened(ArriveKey, data.inFlightEndEvents, t, ended)
    ensures Count(data.inFlightStartEvents[..started], id) == Dequeued(pkts, id, t)
    ensures Count(data.inFlightEndEvents[..ended], id) == Arrived(pkts, id, t)
  {
    hide Sum, Happened;
    SumIsUpTo(DequeueKey, pkts, data.inFlightStartEvents, IsIdBy(id, DequeueKey, t), IsId(id), t, started);
    SumIsUpTo(ArriveKey, pkts, data.inFlightEndEvents, IsIdBy(id, ArriveKey, t), IsId(id), t, ended);
  }

  lemma FoundAt(pkts: seq<PacketRow>, data: LinkAnimationData, t: real, started: nat, ended: nat)
    requires IsDataOf(pkts, data) && NeverAhead(pkts)
    requires Happened(DequeueKey, data.inFlightStartEvents, t, started) && Happened(ArriveKey, data.inFlightEndEvents, t, ended)
    ensures AllFound(data.inFlightStartEvents[..started], data.inFlightEndEvents[..ended])
  {
    hide IsDataOf, Count, Dequeued, Arrived;
    forall id
      ensures Count(data.inFlightEndEvents[..ended], id) <= Count(data.inFlightStartEvents[..started], id)
    {
      CountsAre(pkts, data, t, started, ended, id);
      assert Arrived(pkts, id, t) <= Dequeued(pkts, id, t);
    }
  }

  /** Moving on from where every ended packet was found is as good as starting again. */
  lemma MovesLikeSeek(data: LinkAnimationData, before: seq<PacketRow>, started0: nat, ended0: nat,
                      after: seq<PacketRow>, started: nat, ended: nat)
    requires MovesOn(data, before, started0, ended0, after, started, ended)
    requires AllFound(data.inFlightStartEvents[..started0], data.inFlightEndEvents[..ended0])
    requires before == TakenOut(data.inFlightStartEvents[..started0], data.inFlightEndEvents[..ended0])
    ensures after == TakenOut(data.inFlightStartEvents[..started], data.inFlightEndEvents[..ended])
  {
    hide AllFound;
    var (starts, ends) := (data.inFlightStartEvents, data.inFlightEndEvents);
    assert starts[..started] == starts[..started0] + starts[started0..started];
    assert ends[..ended] == ends[..ended0] + ends[ended0..ended];
    TakenInFront(starts[..started0], ends[..ended0], starts[started0..started]);
    TakenTwice(starts[..started], ends[..ended0], ends[ended0..ended]);
  }

  lemma HappenedNow(pkts: seq<PacketRow>, data: LinkAnimationData, t: real)
    requires IsDataOf(pkts, data)
    ensures Happened(DequeueKey, data.inFlightStartEvents, t, Started(data, t))
    ensures Happened(ArriveKey, data.inFlightEndEvents, t, Ended(data, t))
  {
    PassedHappened(DequeueKey, data.inFlightStartEvents, t);
    PassedHappened(ArriveKey, data.inFlightEndEvents, t);
  }

  lemma {:induction false} NoTrace(pkts: seq<PacketRow>, data: LinkAnimationData, frames: seq<real>)
    requires IsDataOf(pkts, data) && NeverAhead(pkts) && frames != []
    ensures FlightsAfter(data, frames) == Sought(data, frames[|frames| - 1])
    decreases |frames|
  {
    hide IsDataOf, NeverAhead, Happened, AllFound, TakenOut, Started, Ended;
    if !Rebuilds(frames) {
      var (s, t) := (frames[|frames| - 2], frames[|frames| - 1]);
      NoTrace(pkts, data, frames[..|frames| - 1]);
      HappenedNow(pkts, data, s);
      FoundAt(pkts, data, s, Started(data, s), Ended(data, s));
      PlacesGrow(data, s, t);
      MovesLikeSeek(data, Sought(data, s), Started(data, s), Ended(data, s), FlightsAfter(data, frames), Started(data, t), Ended(data, t));
    }
  }

  lemma PlacesGrow(data: LinkAnimationData, s: real, t: real)
    requires s <= t
    ensures Started(data, s) <= Started(data, t) <= |data.inFlightStartEvents|
    ensures Ended(data, s) <= Ended(data, t) <= |data.inFlightEndEvents|
  {
    PassedGrows(DequeueKey, data.inFlightStartEvents, s, t);
    PassedGrows(ArriveKey, data.inFlightEndEvents, s, t);
  }

  /** A time by which everything has happened, after `t` or at it, and after 0. */
  lemma {:induction false} Latest(pkts: seq<PacketRow>, t: real) returns (u: real)
    ensures u >= t && u > 0.0
    ensures forall p :: p in pkts ==> p.dequeueTime <= u && p.arriveTime <= u
    decreases |pkts|
  {
    if pkts == [] {
      u := if t > 0.0 then t else 1.0;
    } else {
      var (front, p) := (pkts[..|pkts| - 1], pkts[|pkts| - 1]);
      assert pkts == front + [p];
      u := Latest(front, t);
      u := if p.dequeueTime > u then p.dequeueTime else u;
      u := if p.arriveTime > u then p.arriveTime else u;
    }
  }

  lemma AllPassed(pkts: seq<PacketRow>, data: LinkAnimationData, u: real)
    requires IsDataOf(pkts, data) && forall p :: p in pkts ==> p.dequeueTime <= u && p.arriveTime <= u
    ensures Started(data, u) == |data.inFlightStartEvents| && Ended(data, u) == |data.inFlightEndEvents|
  {
    var (starts, ends) := (data.inFlightStartEvents, data.inFlightEndEvents);
    SortingMembers(DequeueKey, pkts, starts);
    SortingMembers(ArriveKey, pkts, ends);
    forall i | 0 <= i < |starts|
      ensures DequeueKey(starts[i]) <= u
    {
      assert starts[i] in pkts;
    }
    forall i | 0 <= i < |ends|
      ensures ArriveKey(ends[i]) <= u
    {
      assert ends[i] in pkts;
    }
    PassedIs(DequeueKey, starts, u, |starts|);
    PassedIs(ArriveKey, ends, u, |ends|);
  }

  /** Once everything has happened, a link that is sought directly shows nothing in flight. */
  lemma NothingSought(pkts: seq<PacketRow>, data: LinkAnimationData, u: real)
    requires IsDataOf(pkts, data) && forall p :: p in pkts ==> p.dequeueTime <= u && p.arriveTime <= u
    ensures Sought(data, u) == []
  {
    hide Started, Ended, TakenOut, Sum;
    var (starts, ends) := (data.inFlightStartEvents, data.inFlightEndEvents);
    AllPassed(pkts, data, u);
    assert starts[..|starts|] == starts && ends[..|ends|] == ends;
    forall id
      ensures Count(ends, id) == Count(starts, id)
    {
      SumPermuted(IsId(id), ends, starts);
    }
    var left := Sought(data, u);
    if left != [] {
      TakenCounts(starts, ends, left[0].id);
      CountNotNegative(left, left[0].id);
    }
  }

  lemma CountSplit(s: seq<PacketRow>, n: nat, id: int)
    requires n <= |s|
    ensures Count(s, id) == Count(s[..n], id) + Count(s[n..], id)
  {
    assert s == s[..n] + s[n..];
    SumConcat(IsId(id), s[..n], s[n..]);
  }

  /** If some id is ahead of itself at `t`, a frame at `t` leaves a trace: at a later frame at `u`, when
      everything has happened, a packet is still shown. */
  lemma Trace(pkts: seq<PacketRow>, data: LinkAnimationData, id: int, t: real, u: real)
    requires IsDataOf(pkts, data) && Arrived(pkts, id, t) > Dequeued(pkts, id, t)
    requires u >= t && u > 0.0 && forall p :: p in pkts ==> p.dequeueTime <= u && p.arriveTime <= u
    ensures FlightsAfter(data, [t, u]) != []
  {
    hide Started, Ended, TakenOut, IsDataOf, Arrived, Dequeued, Count, Happened, Sum;
    var (starts, ends) := (data.inFlightStartEvents, data.inFlightEndEvents);
    var (m, n) := (Started(data, t), Ended(data, t));
    assert [t, u][..1] == [t];
    var first := Sought(data, t);
    assert FlightsAfter(data, [t]) == first;
    AllPassed(pkts, data, u);
    PlacesGrow(data, t, u);
    HappenedNow(pkts, data, t);
    CountsAre(pkts, data, t, m, n, id);
    assert starts[m..|starts|] == starts[m..] && ends[n..|ends|] == ends[n..];
    assert FlightsAfter(data, [t, u]) == TakenOut(first + starts[m..], ends[n..]);
    TakenAtMost(first + starts[m..], ends[n..], id);
    CountBoth(first, starts[m..], id);
    CountNotNegative(first, id);
    CountSplit(starts, m, id);
    CountSplit(ends, n, id);
    SameCounts(pkts, data, id);
    NothingCounted(id);
  }

  lemma CountBoth(a: seq<PacketRow>, b: seq<PacketRow>, id: int)
    ensures Count(a + b, id) == Count(a, id) + Count(b, id)
  {
    SumConcat(IsId(id), a, b);
  }

  lemma SameCounts(pkts: seq<PacketRow>, data: LinkAnimationData, id: int)
    requires IsDataOf(pkts, data)
    ensures Count(data.inFlightStartEvents, id) == Count(data.inFlightEndEvents, id)
  {
    SumPermuted(IsId(id), data.inFlightStartEvents, data.inFlightEndEvents);
  }

  /** The packets shown in flight depend on the last frame alone, for all sequences of frames, if and only if
      no id is ever ahead of itself. */
  lemma TracelessIffNeverAhead(pkts: seq<PacketRow>, data: LinkAnimationData)
    requires IsDataOf(pkts, data)
    ensures NeverAhead(pkts) <==>
      forall frames: seq<real> :: frames != [] ==> FlightsAfter(data, frames) == Sought(data, frames[|frames| - 1])
  {
    hide FlightsAfter, Sought, IsDataOf, Arrived, Dequeued;
    if NeverAhead(pkts) {
      forall frames: seq<real> | frames != []
        ensures FlightsAfter(data, frames) == Sought(data, frames[|frames| - 1])
      {
        NoTrace(pkts, data, frames);
      }
    } else {
      var id, t :| Arrived(pkts, id, t) > Dequeued(pkts, id, t);
      var u := Latest(pkts, t);
      Trace(pkts, data, id, t, u);
      NothingSought(pkts, data, u);
      assert [t, u][|[t, u]| - 1] == u;
      assert FlightsAfter(data, [t, u]) != Sought(data, u);
    }
  }

  // ---------- the packets in flight, one by one ----------

  /** Those of `s` that `gone` does not list. */
  function Remaining(s: seq<PacketRow>, gone: seq<PacketRow>): seq<PacketRow> {
    if s == [] then []
    else Remaining(s[..|s| - 1], gone) + if s[|s| - 1] in gone then [] else [s[|s| - 1]]
  }

  /** `flying` is what is left of the packets started, and no packet has ended before it started. */
  ghost predicate Tracks(data: LinkAnimationData, started: nat, ended: nat, flying: seq<PacketRow>) {
    && started <= |data.inFlightStartEvents| && ended <= |data.inFlightEndEvents|
    && flying == Remaining(data.inFlightStartEvents[..started], data.inFlightEndEvents[..ended])
    && forall i :: started <= i < |data.inFlightStartEvents| ==> data.inFlightStartEvents[i] !in data.inFlightEndEvents[..ended]
  }

  ghost predicate DistinctIds(s: seq<PacketRow>) {
    forall i, j :: 0 <= i < j < |s| ==> s[i].id != s[j].id
  }

  lemma {:induction false} RemainingMembers(s: seq<PacketRow>, gone: seq<PacketRow>)
    ensures forall p :: p in Remaining(s, gone) <==> p in s && p !in gone
    ensures DistinctIds(s) ==> DistinctIds(Remaining(s, gone))
    decreases |s|
  {
    if s != [] {
      var (front, x) := (s[..|s| - 1], s[|s| - 1]);
      assert s == front + [x];
      RemainingMembers(front, gone);
      var rest := Remaining(front, gone);
      if DistinctIds(s) {
        forall i | 0 <= i < |rest|
          ensures rest[i].id != x.id
        {
          assert rest[i] in front;
        }
      }
    }
  }

  lemma {:induction false} RemainingConcat(a: seq<PacketRow>, b: seq<PacketRow>, gone: seq<PacketRow>)
    ensures Remaining(a + b, gone) == Remaining(a, gone) + Remaining(b, gone)
    decreases |b|
  {
    if b == [] {
      assert a + b == a;
    } else {
      assert (a + b)[..|a + b| - 1] == a + b[..|b| - 1];
      RemainingConcat(a, b[..|b| - 1], gone);
    }
  }

  lemma {:induction false} RemainingAll(s: seq<PacketRow>, gone: seq<PacketRow>)
    requires forall p :: p in s ==> p !in gone
    ensures Remaining(s, gone) == s
    decreases |s|
  {
    if s != [] {
      assert s == s[..|s| - 1] + [s[|s| - 1]];
      RemainingAll(s[..|s| - 1], gone);
    }
  }

  lemma RemainingOneMore(s: seq<PacketRow>, last: PacketRow, gone: seq<PacketRow>)
    ensures Remaining(s + [last], gone) == Remaining(s, gone) + if last in gone then [] else [last]
  {
  }

  /** Two removals, one after the other. */
  lemma {:induction false} RemainingTwice(s: seq<PacketRow>, gone: seq<PacketRow>, x: PacketRow)
    ensures Remaining(s, gone + [x]) == Remaining(Remaining(s, gone), [x])
    decreases |s|
  {
    if s != [] {
      var (front, last) := (s[..|s| - 1], s[|s| - 1]);
      RemainingTwice(front, gone, x);
      var r := Remaining(front, gone);
      RemainingOneMore(r, last, [x]);
      assert r + [] == r && Remaining(r, [x]) + [] == Remaining(r, [x]);
      assert last in gone + [x] <==> last in gone || last == x;
    }
  }

  /** Removing a packet that occurs once. */
  lemma RemoveOne(a: seq<PacketRow>, x: PacketRow, b: seq<PacketRow>)
    requires x !in a && x !in b
    ensures Remaining((a + [x]) + b, [x]) == a + b
  {
    hide Remaining;
    RemainingConcat(a + [x], b, [x]);
    RemainingOneMore(a, x, [x]);
    assert a + [] == a;
    RemainingAll(a, [x]);
    RemainingAll(b, [x]);
  }

  lemma Around(r: seq<PacketRow>, i: nat)
    requires i < |r|
    ensures r == (r[..i] + [r[i]]) + r[i + 1..]
  {
  }

  /** Removing the packet at index `i` of a list with distinct ids. */
  lemma RemoveAt(r: seq<PacketRow>, i: nat)
    requires i < |r| && DistinctIds(r)
    ensures Remaining(r, [r[i]]) == r[..i] + r[i + 1..]
  {
    hide Remaining;
    Around(r, i);
    RemoveOne(r[..i], r[i], r[i + 1..]);
  }

  /** Taking out the packet at its index is the same as listing it among the gone. */
  lemma TakeOut(s: seq<PacketRow>, gone: seq<PacketRow>, x: PacketRow, i: int)
    requires DistinctIds(s) && x in s
    requires -1 <= i < |Remaining(s, gone)|
    requires i >= 0 ==> Remaining(s, gone)[i].id == x.id
    requires i == -1 ==> forall j :: 0 <= j < |Remaining(s, gone)| ==> Remaining(s, gone)[j].id != x.id
    ensures Remaining(s, gone + [x]) ==
      if i == -1 then Remaining(s, gone) else Remaining(s, gone)[..i] + Remaining(s, gone)[i + 1..]
  {
    hide Remaining;
    var r := Remaining(s, gone);
    RemainingMembers(s, gone);
    RemainingTwice(s, gone, x);
    if i == -1 {
      assert x !in r;
      hide DistinctIds;
      RemainingAll(r, [x]);
    } else {
      assert r[i] in s && r[i] == x;
      hide DistinctIds;
      RemoveAt(r, i);
    }
  }

  /** Reordering keeps the ids distinct and the packets the same. */
  lemma PermutedIds(pkts: seq<PacketRow>, s: seq<PacketRow>)
    requires multiset(pkts) == multiset(s)
    ensures forall p :: p in s <==> p in pkts
    ensures DistinctIds(pkts) ==> DistinctIds(s)
  {
    forall p
      ensures p in s <==> p in pkts
    {
      assert p in multiset(s) <==> p in multiset(pkts);
    }
    forall i, j | DistinctIds(pkts) && 0 <= i < j < |s|
      ensures s[i].id != s[j].id
    {
      assert s[i] in pkts && s[j] in pkts;
      if s[i].id == s[j].id {
        var a :| 0 <= a < |pkts| && pkts[a] == s[i];
        var b :| 0 <= b < |pkts| && pkts[b] == s[j];
        assert a == b;
        Twice(s, i, j);
        Once(pkts, a);
      }
    }
  }

  lemma Twice(s: seq<PacketRow>, i: nat, j: nat)
    requires i < j < |s| && s[i] == s[j]
    ensures multiset(s)[s[i]] >= 2
  {
    assert s == s[..i] + [s[i]] + s[i + 1..j] + [s[j]] + s[j + 1..];
  }

  lemma Once(s: seq<PacketRow>, i: nat)
    requires i < |s| && DistinctIds(s)
    ensures multiset(s)[s[i]] == 1
  {
    assert s == s[..i] + [s[i]] + s[i + 1..];
    assert s[i] !in s[..i] && s[i] !in s[i + 1..];
  }

  /** One arrival keeps the track. */
  lemma EndOne(pkts: seq<PacketRow>, data: LinkAnimationData, t: real, started: nat, ended: nat, flying: seq<PacketRow>)
    requires IsDataOf(pkts, data) && Playable(pkts) && Tracks(data, started, ended, flying)
    requires Happened(DequeueKey, data.inFlightStartEvents, t, started)
    requires ended < |data.inFlightEndEvents| && data.inFlightEndEvents[ended].arriveTime <= t
    ensures Tracks(data, started, ended + 1, Without(flying, data.inFlightEndEvents[ended].id))
  {
    var (starts, ends) := (data.inFlightStartEvents, data.inFlightEndEvents);
    var x := ends[ended];
    var i := IndexOfId(flying, x.id);
    if i == -1 { WithoutNone(flying, x.id); } else { WithoutFirst(flying, x.id, i); }
    hide Without;
    assert ends[..ended + 1] == ends[..ended] + [x];
    PermutedIds(pkts, starts);
    PermutedIds(pkts, ends);
    assert x in ends && x in pkts && x in starts;
    var a :| 0 <= a < |pkts| && pkts[a] == x;
    assert x.dequeueTime <= x.arriveTime <= t;
    var k :| 0 <= k < |starts| && starts[k] == x;
    assert DequeueKey(starts[k]) <= t;
    assert starts[..started][k] == x;
    TakeOut(starts[..started], ends[..ended], x, i);
    forall j | started <= j < |starts|
      ensures starts[j] !in ends[..ended + 1]
    {
      assert starts[j].id != starts[k].id;
    }
  }

  /** With distinct ids and no arrival before its dequeue, taking out by id takes out the packets that ended. */
  lemma {:induction false} TakenTracks(pkts: seq<PacketRow>, data: LinkAnimationData, t: real, started: nat, ended: nat)
    requires IsDataOf(pkts, data) && Playable(pkts)
    requires Happened(DequeueKey, data.inFlightStartEvents, t, started)
    requires HappenedBy(ArriveKey, data.inFlightEndEvents, t, ended)
    ensures Tracks(data, started, ended, TakenOut(data.inFlightStartEvents[..started], data.inFlightEndEvents[..ended]))
    decreases ended
  {
    var (starts, ends) := (data.inFlightStartEvents, data.inFlightEndEvents);
    if ended == 0 {
      RemainingAll(starts[..started], []);
      assert ends[..0] == [];
    } else {
      hide IsDataOf, Playable, Happened, Tracks;
      TakenTracks(pkts, data, t, started, ended - 1);
      assert ArriveKey(ends[ended - 1]) <= t;
      EndOne(pkts, data, t, started, ended - 1, TakenOut(starts[..started], ends[..ended - 1]));
      assert ends[..ended][..ended - 1] == ends[..ended - 1];
    }
  }

  lemma {:induction false} RemainingIsFlights(s: seq<PacketRow>, gone: seq<PacketRow>, t: real)
    requires forall p :: p in s ==> p.dequeueTime <= t && (p in gone <==> p.arriveTime <= t)
    ensures Remaining(s, gone) == FlightsAt(s, t)
    decreases |s|
  {
    if s != [] {
      assert s == s[..|s| - 1] + [s[|s| - 1]];
      RemainingIsFlights(s[..|s| - 1], gone, t);
    }
  }

  /** Packets that have not left the queue are not in flight. */
  lemma {:induction false} FlightsOfStarted(s: seq<PacketRow>, t: real, n: nat)
    requires Happened(DequeueKey, s, t, n)
    ensures FlightsAt(s, t) == FlightsAt(s[..n], t)
    decreases |s|
  {
    if n == |s| {
      assert s[..n] == s;
    } else {
      var front := s[..|s| - 1];
      FlightsOfStarted(front, t, n);
      assert front[..n] == s[..n];
      assert DequeueKey(s[|s| - 1]) > t;
    }
  }

  lemma FlightsMeaning(pkts: seq<PacketRow>, data: LinkAnimationData, t: real, started: nat, ended: nat, flying: seq<PacketRow>)
    requires IsDataOf(pkts, data) && Tracks(data, started, ended, flying)
    requires Happened(DequeueKey, data.inFlightStartEvents, t, started) && Happened(ArriveKey, data.inFlightEndEvents, t, ended)
    ensures flying == FlightsAt(data.inFlightStartEvents, t)
  {
    var (starts, ends) := (data.inFlightStartEvents, data.inFlightEndEvents);
    SortingMembers(DequeueKey, pkts, starts);
    SortingMembers(ArriveKey, pkts, ends);
    forall p | p in starts[..started]
      ensures p.dequeueTime <= t && (p in ends[..ended] <==> p.arriveTime <= t)
    {
      var i :| 0 <= i < started && starts[i] == p;
      assert DequeueKey(starts[i]) <= t;
      assert p in starts && p in ends;
      var j :| 0 <= j < |ends| && ends[j] == p;
      assert j < ended <==> ArriveKey(ends[j]) <= t;
      if p in ends[..ended] {
        var k :| 0 <= k < ended && ends[k] == p;
        assert ArriveKey(ends[k]) <= t;
      } else {
        assert j >= ended;
      }
    }
    RemainingIsFlights(starts[..started], ends[..ended], t);
    FlightsOfStarted(starts, t, started);
  }
}
