/**
  From the simulator's callbacks to the browser's view: the rows of a clocked run, written to a link's
  file and read back, meet every assumption that the queue graph and the playback make.
*/
module EndToEnd {
  import opened Text
  import opened Csv
  import opened Traces
  import opened QueueSeries
  import QueueGraph
  import Flights
  import Playback

  /** What the browser reads back from the file of a link. */
  function ReadBack(events: seq<Event>, link: string): seq<PacketRow> {
    ParseLines(Split(Trim(FileText(LinkRows(events, link))), '\n')[1..])
  }

  lemma SecondsInOrder(a: int, b: int)
    requires a <= b
    ensures Seconds(a) <= Seconds(b)
  {
  }

  /** Reading back gives the logged rows; every packet is well timed, arrives after it left, and has its own id. */
  lemma ViewIsSound(events: seq<Event>, link: string)
    requires Clocked(events)
    ensures ReadBack(events, link) == Packets(LinkRows(events, link))
    ensures WellTimed(ReadBack(events, link)) && Flights.Playable(ReadBack(events, link))
  {
    hide LinkRows, FileText, Clocked, Seconds;
    var rows := LinkRows(events, link);
    CsvRoundTrip(rows);
    RowsWellTimed(events, link);
    LoggedOnce(events, link);
    assert Seconds(0) == 0.0 by { ZeroSeconds(); }
    forall i | 0 <= i < |rows|
      ensures rows[i].size >= 0
      ensures 0.0 <= Seconds(rows[i].enqueueTime) <= Seconds(rows[i].dequeueTime) <= Seconds(rows[i].arriveTime)
    {
      assert rows[i] in rows;
      SecondsInOrder(0, rows[i].enqueueTime);
      SecondsInOrder(rows[i].enqueueTime, rows[i].dequeueTime);
      SecondsInOrder(rows[i].dequeueTime, rows[i].arriveTime);
    }
  }

  lemma ZeroSeconds()
    ensures Seconds(0) == 0.0
  {
  }

  /** A packet that arrives at `t`. */
  ghost predicate Arrival(packets: map<string, seq<PacketRow>>, t: real) {
    exists link, i :: link in packets && 0 <= i < |packets[link]| && packets[link][i].arriveTime == t
  }

  /** The end of the simulation as the browser takes it: the last arrival, or 10 if none is after 0. */
  method SimEndTime(packets: map<string, seq<PacketRow>>) returns (end: real)
    ensures forall link, i :: link in packets && 0 <= i < |packets[link]| ==> packets[link][i].arriveTime <= end
    ensures end > 0.0
    ensures if exists t :: t > 0.0 && Arrival(packets, t) then Arrival(packets, end) else end == 10.0
  {
    var max := 0.0;
    var todo := packets.Keys;
    while todo != {}
      invariant todo <= packets.Keys && max >= 0.0
      invariant forall link, i :: link in packets && link !in todo && 0 <= i < |packets[link]| ==> packets[link][i].arriveTime <= max
      invariant max == 0.0 || Arrival(packets, max)
      decreases todo
    {
      var link :| link in todo;
      var pkts := packets[link];
      var i := 0;
      while i < |pkts|
        invariant 0 <= i <= |pkts| && max >= 0.0
        invariant forall link, i :: link in packets && link !in todo && 0 <= i < |packets[link]| ==> packets[link][i].arriveTime <= max
        invariant forall j :: 0 <= j < i ==> pkts[j].arriveTime <= max
        invariant max == 0.0 || Arrival(packets, max)
      {
        if pkts[i].arriveTime > max {
          max := pkts[i].arriveTime;
          assert packets[link][i].arriveTime == max;
        }
        i := i + 1;
      }
      todo := todo - {link};
    }
    end := if max > 0.0 then max else 10.0;
  }

  /** With the browser's end time, every link's queue graph ends with an empty queue. */
  lemma GraphEndsEmpty(events: seq<Event>, link: string, end: real, ss: seq<Snapshot>)
    requires Clocked(events) && IsSeries(ReadBack(events, link), end, ss)
    requires forall i :: 0 <= i < |ReadBack(events, link)| ==> ReadBack(events, link)[i].arriveTime <= end
    ensures |ss| > 0 && ss[|ss| - 1].bytes == 0 && ss[|ss| - 1].packets == 0
  {
    hide ReadBack, Clocked, IsSeries, WellTimed;
    ViewIsSound(events, link);
    QueueGraph.SeriesNotEmpty(ReadBack(events, link), end, ss);
    QueueGraph.SeriesEndsEmpty(ReadBack(events, link), end, ss);
  }

  /** At every time, the queue graph of a run and the playback of the same run show the same queue. */
  lemma GraphAgreesWithPlayback(events: seq<Event>, link: string, end: real, ss: seq<Snapshot>, i: nat, t: real,
                                cursor: Playback.LinkAnimationCursor, data: Flights.LinkAnimationData)
    requires Clocked(events) && IsSeries(ReadBack(events, link), end, ss)
    requires QueueGraph.IsLastAtOrBefore(ss, t, i) && t <= end
    requires Flights.IsDataOf(ReadBack(events, link), data) && cursor.At(data, t)
    ensures ss[i].bytes == cursor.depth == Queued(ReadBack(events, link), t, false)
    ensures ss[i].packets == Queued(ReadBack(events, link), t, true)
  {
    hide ReadBack, Clocked, IsSeries, WellTimed;
    var pkts := ReadBack(events, link);
    ViewIsSound(events, link);
    Playback.CursorMeaning(cursor, pkts, data, t);
    QueueGraph.HoldsUntilNext(pkts, end, ss, i, t, false);
    QueueGraph.HoldsUntilNext(pkts, end, ss, i, t, true);
  }
}
