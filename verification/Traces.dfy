/**
  The packet trace callbacks of the simulator (`ArrivalTrace`, `DequeueTrace`, `MacRxTrace` in
  ns3/scratch/DCN.cc): per link and packet a small state machine, absent - queued - dequeued - logged.
  The events of a run are arbitrary: repeated, out of order, for unknown packets. The counters kept for
  other statistics are left out.
*/
module Traces {
  import opened Csv

  datatype PacketArrivalInfo = Info(size: nat, enqueueTime: int, dequeueTime: int, logged: bool)

  type Arrivals = map<nat, PacketArrivalInfo>

  /** A callback, with the clock reading it sees. */
  datatype Event =
    | Enqueue(link: string, uid: nat, size: nat, now: int)
    | Dequeue(link: string, uid: nat, now: int)
    | Receive(link: string, uid: nat, now: int)

  // ---------- one step ----------

  /** `tracesByLink[link]`, which makes an empty entry for an unknown link. */
  function Entry(traces: map<string, Arrivals>, link: string): Arrivals {
    if link in traces then traces[link] else map[]
  }

  /** The row a callback logs, if any: a received packet with a dequeue time other than 0, once. */
  function Logs(traces: map<string, Arrivals>, e: Event): Option<Row> {
    var known := Entry(traces, e.link);
    if e.Receive? && e.uid in known && !known[e.uid].logged && known[e.uid].dequeueTime != 0 then
      Some(Row(e.uid, known[e.uid].size, known[e.uid].enqueueTime, known[e.uid].dequeueTime, e.now))
    else None
  }

  function NextInfo(known: Arrivals, e: Event): Arrivals {
    match e
    case Enqueue(_, uid, size, now) => if uid in known then known else known[uid := Info(size, now, 0, false)]
    case Dequeue(_, uid, now) => if uid !in known || known[uid].logged then known else known[uid := known[uid].(dequeueTime := now)]
    case Receive(_, uid, _) =>
      if uid !in known || known[uid].logged || known[uid].dequeueTime == 0 then known
      else known[uid := known[uid].(logged := true)]
  }

  function Next(traces: map<string, Arrivals>, e: Event): map<string, Arrivals> {
    traces[e.link := NextInfo(Entry(traces, e.link), e)]
  }

  // ---------- the callbacks ----------

  class TraceSinks {
    var tracesByLink: map<string, Arrivals>
    var logger: CsvLogger?

    constructor (logger: CsvLogger?)
      ensures tracesByLink == map[] && this.logger == logger
    {
      tracesByLink := map[];
      this.logger := logger;
    }

    method ArrivalTrace(linkId: string, uid: nat, size: nat, now: int)
      modifies this`tracesByLink
      ensures tracesByLink == Next(old(tracesByLink), Enqueue(linkId, uid, size, now))
    {
      var known: Arrivals := Entry(tracesByLink, linkId);
      if uid !in known {
        known := known[uid := Info(size, now, 0, false)];
      }
      tracesByLink := tracesByLink[linkId := known];
    }

    method DequeueTrace(linkId: string, uid: nat, now: int)
      modifies this`tracesByLink
      ensures tracesByLink == Next(old(tracesByLink), Dequeue(linkId, uid, now))
    {
      var known: Arrivals := Entry(tracesByLink, linkId);
      tracesByLink := tracesByLink[linkId := known];
      if uid !in known || known[uid].logged {
        return;
      }
      known := known[uid := known[uid].(dequeueTime := now)];
      tracesByLink := tracesByLink[linkId := known];
    }

    method MacRxTrace(linkId: string, uid: nat, now: int)
      requires logger != null ==> logger.Valid()
      modifies this`tracesByLink, logger
      ensures tracesByLink == Next(old(tracesByLink), Receive(linkId, uid, now))
      ensures logger != null ==> logger.Valid()
      ensures logger != null ==>
        match Logs(old(tracesByLink), Receive(linkId, uid, now))
        case None => logger.rows == old(logger.rows) && logger.files == old(logger.files)
        case Some(row) =>
          logger.files == old(logger.files) + {linkId}
          && logger.rows == old(logger.rows)[linkId := (if linkId in old(logger.files) then old(logger.rows)[linkId] else []) + [row]]
    {
      var known: Arrivals := Entry(tracesByLink, linkId);
      tracesByLink := tracesByLink[linkId := known];
      if uid !in known || known[uid].logged || known[uid].dequeueTime == 0 {
        return;
      }
      known := known[uid := known[uid].(logged := true)];
      tracesByLink := tracesByLink[linkId := known];
      if logger != null {
        logger.Log(linkId, Row(uid, known[uid].size, known[uid].enqueueTime, known[uid].dequeueTime, now));
      }
    }

    /** Any one of the three callbacks. */
    method Dispatch(e: Event)
      requires logger != null && logger.Valid()
      modifies this`tracesByLink, logger
      ensures logger != null && logger.Valid() && tracesByLink == Next(old(tracesByLink), e)
      ensures match Logs(old(tracesByLink), e)
        case None => logger.rows == old(logger.rows) && logger.files == old(logger.files)
        case Some(row) =>
          logger.files == old(logger.files) + {e.link}
          && logger.rows == old(logger.rows)[e.link := (if e.link in old(logger.files) then old(logger.rows)[e.link] else []) + [row]]
    {
      hide NextInfo, Next, FileText;
      match e {
        case Enqueue(link, uid, size, now) => ArrivalTrace(link, uid, size, now);
        case Dequeue(link, uid, now) => DequeueTrace(link, uid, now);
        case Receive(link, uid, now) => MacRxTrace(link, uid, now);
      }
    }

    /** A whole run with a fresh logger: each link's file ends up with that link's rows. */
    method Replay(events: seq<Event>)
      requires tracesByLink == map[] && logger != null && logger.Valid() && logger.files == {} && logger.rows == map[]
      modifies this`tracesByLink, logger
      ensures logger != null && logger.Valid() && tracesByLink == After(events).traces
      ensures logger.rows == AfterCalls(After(events).log)
      ensures forall link :: RowsFor(After(events).log, link) != [] ==>
        FileName(logger.directory, link) in logger.disk
        && logger.disk[FileName(logger.directory, link)] == FileText(RowsFor(After(events).log, link))
    {
      hide Next, Logs, FileText, FileName, AfterCalls;
      assert AfterCalls([]) == map[] by { NoCalls(); }
      var i := 0;
      while i < |events|
        invariant 0 <= i <= |events| && logger == old(logger) && logger != null && logger.Valid()
        invariant tracesByLink == After(events[..i]).traces
        invariant logger.rows == AfterCalls(After(events[..i]).log) && logger.files == logger.rows.Keys
      {
        assert events[..i + 1][..i] == events[..i];
        Dispatch(events[i]);
        LoggedCall(After(events[..i]), events[i]);
        i := i + 1;
      }
      assert events[..i] == events;
      forall link | RowsFor(After(events).log, link) != []
        ensures link in logger.rows && logger.rows[link] == RowsFor(After(events).log, link)
      {
        KeysAreSeparate(After(events).log, link);
      }
    }
  }

  lemma NoCalls()
    ensures AfterCalls([]) == map[]
  {
  }

  // ---------- runs ----------

  /** The trace maps and the calls to the logger so far. */
  datatype State = State(traces: map<string, Arrivals>, log: seq<(string, Row)>)

  function Step(s: State, e: Event): State {
    State(Next(s.traces, e), s.log + match Logs(s.traces, e) case Some(row) => [(e.link, row)] case None => [])
  }

  function After(events: seq<Event>): State {
    if events == [] then State(map[], []) else Step(After(events[..|events| - 1]), events[|events| - 1])
  }

  lemma LoggedCall(s: State, e: Event)
    ensures AfterCalls(Step(s, e).log) ==
      match Logs(s.traces, e)
      case None => AfterCalls(s.log)
      case Some(row) =>
        AfterCalls(s.log)[e.link := (if e.link in AfterCalls(s.log) then AfterCalls(s.log)[e.link] else []) + [row]]
  {
    hide Next, Logs;
    match Logs(s.traces, e)
    case None => assert s.log + [] == s.log;
    case Some(row) => assert (s.log + [(e.link, row)])[..|s.log|] == s.log;
  }

  /** The rows of one link after a run. */
  function LinkRows(events: seq<Event>, link: string): seq<Row> {
    RowsFor(After(events).log, link)
  }

  /** What the maps know of one packet after a run. */
  function Known(events: seq<Event>, link: string, uid: nat): Option<PacketArrivalInfo> {
    var known := Entry(After(events).traces, link);
    if uid in known then Some(known[uid]) else None
  }

  lemma RowsAfter(events: seq<Event>, e: Event, link: string)
    ensures LinkRows(events + [e], link) == LinkRows(events, link) +
      (if e.link == link && Logs(After(events).traces, e).Some? then [Logs(After(events).traces, e).value] else [])
  {
    hide Next, Logs;
    assert (events + [e])[..|events|] == events;
    var log := After(events).log;
    match Logs(After(events).traces, e)
    case None => assert log + [] == log;
    case Some(row) => assert (log + [(e.link, row)])[..|log|] == log;
  }

  /** One packet's own state machine: absent (None), queued, dequeued at least once, logged. */
  function PacketStep(before: Option<PacketArrivalInfo>, e: Event): Option<PacketArrivalInfo> {
    match before
    case None => if e.Enqueue? then Some(Info(e.size, e.now, 0, false)) else None
    case Some(info) =>
      if info.logged || e.Enqueue? then before
      else if e.Dequeue? then Some(info.(dequeueTime := e.now))
      else if info.dequeueTime == 0 then before
      else Some(info.(logged := true))
  }

  function PacketLogs(before: Option<PacketArrivalInfo>, e: Event): Option<Row> {
    if before.Some? && e.Receive? && !before.value.logged && before.value.dequeueTime != 0 then
      Some(Row(e.uid, before.value.size, before.value.enqueueTime, before.value.dequeueTime, e.now))
    else None
  }

  lemma KnownAfter(events: seq<Event>, e: Event, link: string, uid: nat)
    ensures Known(events + [e], link, uid) ==
      if Concerns(e, link, uid) then PacketStep(Known(events, link, uid), e) else Known(events, link, uid)
    ensures Concerns(e, link, uid) ==> Logs(After(events).traces, e) == PacketLogs(Known(events, link, uid), e)
  {
  }

  // ---------- what the rows of a run mean ----------

  predicate Concerns(e: Event, link: string, uid: nat) {
    e.link == link && e.uid == uid
  }

  ghost predicate FirstEnqueue(events: seq<Event>, link: string, uid: nat, i: nat) {
    && i < |events| && events[i].Enqueue? && Concerns(events[i], link, uid)
    && forall h :: 0 <= h < i ==> !(events[h].Enqueue? && Concerns(events[h], link, uid))
  }

  /** Event `j` is the last dequeue of the packet between `i` and `k`. */
  ghost predicate LastDequeue(events: seq<Event>, link: string, uid: nat, i: nat, j: nat, k: nat) {
    && i < j < k <= |events| && events[j].Dequeue? && Concerns(events[j], link, uid)
    && forall h :: j < h < k ==> !(events[h].Dequeue? && Concerns(events[h], link, uid))
  }

  /** A reception at `k` of a packet last dequeued, since its first enqueue `i`, at a time other than 0. */
  ghost predicate Deliverable(events: seq<Event>, link: string, uid: nat, i: nat, j: nat, k: nat) {
    && k < |events| && events[k].Receive? && Concerns(events[k], link, uid)
    && LastDequeue(events, link, uid, i, j, k) && events[j].now != 0
  }

  /** `row` tells of the first enqueue, the last dequeue before the first deliverable reception, and that reception. */
  ghost predicate Describes(events: seq<Event>, link: string, row: Row, i: nat, j: nat, k: nat) {
    && row.id >= 0 && FirstEnqueue(events, link, row.id, i) && Deliverable(events, link, row.id, i, j, k)
    && (forall j': nat, k': nat :: k' < k ==> !Deliverable(events, link, row.id, i, j', k'))
    && row == Row(events[i].uid, events[i].size, events[i].now, events[j].now, events[k].now)
  }

  /** What the maps hold about a packet, in terms of the run. */
  ghost predicate Explains(events: seq<Event>, link: string, uid: nat, info: Option<PacketArrivalInfo>) {
    match info
    case None => forall h :: 0 <= h < |events| ==> !(events[h].Enqueue? && Concerns(events[h], link, uid))
    case Some(p) =>
      exists i: nat :: ExplainedFrom(events, link, uid, p, i)
  }

  /** The entry `p` is what the run makes of a packet first enqueued by event `i`. */
  ghost predicate ExplainedFrom(events: seq<Event>, link: string, uid: nat, p: PacketArrivalInfo, i: nat) {
    && FirstEnqueue(events, link, uid, i) && p.size == events[i].size && p.enqueueTime == events[i].now
    && (p.logged <==> exists j: nat, k: nat :: Deliverable(events, link, uid, i, j, k))
    && (!p.logged ==> AwaitsDelivery(events, link, uid, p, i))
  }

  ghost predicate AwaitsDelivery(events: seq<Event>, link: string, uid: nat, p: PacketArrivalInfo, i: nat) {
    || (p.dequeueTime == 0 && NoDequeue(events, link, uid, i))
    || (exists j: nat :: LastDequeue(events, link, uid, i, j, |events|) && p.dequeueTime == events[j].now)
  }

  ghost predicate NoDequeue(events: seq<Event>, link: string, uid: nat, i: nat) {
    forall h :: i < h < |events| ==> !(events[h].Dequeue? && Concerns(events[h], link, uid))
  }

  lemma DeliverableGrows(events: seq<Event>, e: Event, link: string, uid: nat, i: nat, j: nat, k: nat)
    ensures k < |events| ==>
      (Deliverable(events + [e], link, uid, i, j, k) <==> Deliverable(events, link, uid, i, j, k))
    ensures FirstEnqueue(events, link, uid, i) ==> FirstEnqueue(events + [e], link, uid, i)
    ensures i < |events| && FirstEnqueue(events + [e], link, uid, i) ==> FirstEnqueue(events, link, uid, i)
  {
    var all := events + [e];
    assert forall h {:trigger events[h]} :: 0 <= h < |events| ==> all[h] == events[h];
  }

  lemma {:induction false} StateExplained(events: seq<Event>, link: string, uid: nat)
    ensures Explains(events, link, uid, Known(events, link, uid))
    decreases |events|
  {
    if events != [] {
      var (front, e) := (events[..|events| - 1], events[|events| - 1]);
      assert events == front + [e];
      StateExplained(front, link, uid);
      KnownAfter(front, e, link, uid);
      ExplainStep(front, e, link, uid, Known(front, link, uid), Known(events, link, uid));
    }
  }

  lemma ExplainStep(events: seq<Event>, e: Event, link: string, uid: nat, before: Option<PacketArrivalInfo>,
                    after: Option<PacketArrivalInfo>)
    requires Explains(events, link, uid, before)
    requires after == if Concerns(e, link, uid) then PacketStep(before, e) else before
    ensures Explains(events + [e], link, uid, after)
  {
    var all := events + [e];
    var n := |events|;
    if before.None? {
      if after.Some? {
        assert FirstEnqueue(all, link, uid, n) && NoDequeue(all, link, uid, n);
        assert ExplainedFrom(all, link, uid, after.value, n);
      }
    } else {
      var p := before.value;
      var i: nat :| ExplainedFrom(events, link, uid, p, i);
      DeliverableGrows(events, e, link, uid, i, i, i);
      LoggedStep(events, e, link, uid, i, p, after.value);
      DequeueStep(events, e, link, uid, i, p, after.value);
      assert ExplainedFrom(all, link, uid, after.value, i);
    }
  }

  lemma LoggedStep(events: seq<Event>, e: Event, link: string, uid: nat, i: nat, p: PacketArrivalInfo, q: PacketArrivalInfo)
    requires ExplainedFrom(events, link, uid, p, i)
    requires q.logged <==> p.logged || (Concerns(e, link, uid) && e.Receive? && p.dequeueTime != 0)
    ensures q.logged <==> exists j: nat, k: nat :: Deliverable(events + [e], link, uid, i, j, k)
  {
    var all := events + [e];
    var n := |events|;
    if p.logged {
      var j: nat, k: nat :| Deliverable(events, link, uid, i, j, k);
      assert Deliverable(all, link, uid, i, j, k);
    } else if q.logged {
      var j: nat :| LastDequeue(events, link, uid, i, j, n) && p.dequeueTime == events[j].now;
      assert Deliverable(all, link, uid, i, j, n);
    } else if j: nat, k: nat :| Deliverable(all, link, uid, i, j, k) {
      DeliverableGrows(events, e, link, uid, i, j, k);
      assert k == n;
      assert forall h {:trigger events[h]} :: 0 <= h < n ==> all[h] == events[h];
      assert LastDequeue(events, link, uid, i, j, n);
      assert false;
    }
  }

  lemma DequeueStep(events: seq<Event>, e: Event, link: string, uid: nat, i: nat, p: PacketArrivalInfo, q: PacketArrivalInfo)
    requires FirstEnqueue(events, link, uid, i) && (!p.logged ==> AwaitsDelivery(events, link, uid, p, i))
    requires !q.logged ==> !p.logged
    requires !q.logged ==> q.dequeueTime == if Concerns(e, link, uid) && e.Dequeue? then e.now else p.dequeueTime
    ensures !q.logged ==> AwaitsDelivery(events + [e], link, uid, q, i)
  {
    var all := events + [e];
    var n := |events|;
    if !q.logged {
      if Concerns(e, link, uid) && e.Dequeue? {
        assert LastDequeue(all, link, uid, i, n, n + 1) && all[n].now == e.now;
      } else if j: nat :| LastDequeue(events, link, uid, i, j, n) && p.dequeueTime == events[j].now {
        assert LastDequeue(all, link, uid, i, j, n + 1) && all[j] == events[j];
      } else {
        assert NoDequeue(all, link, uid, i);
      }
    }
  }

  // ---------- the log of a run ----------

  /** Which rows of a link were logged, exactly: those that describe a delivery. */
  lemma {:induction false} RowsDescribeRun(events: seq<Event>, link: string, row: Row)
    ensures row in LinkRows(events, link) <==> exists i: nat, j: nat, k: nat :: Describes(events, link, row, i, j, k)
    decreases |events|
  {
    hide Describes, LinkRows;
    if events == [] {
      NothingLogged(link, row);
    } else {
      var (front, e) := (events[..|events| - 1], events[|events| - 1]);
      assert events == front + [e];
      RowsDescribeRun(front, link, row);
      RowsAfter(front, e, link);
      DescribeStep(front, e, link, row);
    }
  }

  lemma NothingLogged(link: string, row: Row)
    ensures row !in LinkRows([], link) && forall i: nat, j: nat, k: nat :: !Describes([], link, row, i, j, k)
  {
  }

  /** A row describes the longer run if it did before, or if the new event is the delivery it tells of. */
  lemma DescribeStep(events: seq<Event>, e: Event, link: string, row: Row)
    ensures (exists i: nat, j: nat, k: nat :: Describes(events + [e], link, row, i, j, k)) <==>
      || (exists i: nat, j: nat, k: nat :: Describes(events, link, row, i, j, k))
      || (e.link == link && Logs(After(events).traces, e) == Some(row))
  {
    hide Describes, Explains, FirstEnqueue, Deliverable;
    var all := events + [e];
    if i: nat, j: nat, k: nat :| Describes(events, link, row, i, j, k) {
      DescribesGrows(events, e, link, row, i, j, k);
    }
    if e.link == link && Logs(After(events).traces, e) == Some(row) {
      KnownAfter(events, e, link, e.uid);
      StateExplained(events, link, e.uid);
      var i, j := NewRowDescribes(events, e, link, row, Known(events, link, e.uid));
      assert Describes(all, link, row, i, j, |events|);
    }
    if i: nat, j: nat, k: nat :| Describes(all, link, row, i, j, k) {
      DescribesGrows(events, e, link, row, i, j, k);
      if k == |events| {
        KnownAfter(events, e, link, e.uid);
        StateExplained(events, link, e.uid);
        DescribedIsNew(events, e, link, row, i, j, Known(events, link, e.uid));
      }
    }
  }

  lemma DescribesGrows(events: seq<Event>, e: Event, link: string, row: Row, i: nat, j: nat, k: nat)
    ensures Describes(events, link, row, i, j, k) ==> Describes(events + [e], link, row, i, j, k)
    ensures Describes(events + [e], link, row, i, j, k) ==> k <= |events| && (k < |events| ==> Describes(events, link, row, i, j, k))
  {
    if row.id >= 0 {
      var all := events + [e];
      assert forall h {:trigger events[h]} :: 0 <= h < |events| ==> all[h] == events[h];
      forall j': nat, k': nat
        ensures k' < |events| ==> (Deliverable(all, link, row.id, i, j', k') <==> Deliverable(events, link, row.id, i, j', k'))
        ensures FirstEnqueue(events, link, row.id, i) ==> FirstEnqueue(all, link, row.id, i)
        ensures i < |events| && FirstEnqueue(all, link, row.id, i) ==> FirstEnqueue(events, link, row.id, i)
      {
        DeliverableGrows(events, e, link, row.id, i, j', k');
      }
    }
  }

  lemma NewRowDescribes(events: seq<Event>, e: Event, link: string, row: Row, known: Option<PacketArrivalInfo>)
    returns (i: nat, j: nat)
    requires Explains(events, link, e.uid, known) && e.link == link && PacketLogs(known, e) == Some(row)
    ensures Describes(events + [e], link, row, i, j, |events|)
  {
    var all := events + [e];
    var n := |events|;
    var p := known.value;
    i :| ExplainedFrom(events, link, e.uid, p, i);
    j :| LastDequeue(events, link, e.uid, i, j, n) && p.dequeueTime == events[j].now;
    assert Deliverable(all, link, e.uid, i, j, n);
    forall j': nat, k': nat | k' < n
      ensures !Deliverable(all, link, e.uid, i, j', k')
    {
      DeliverableGrows(events, e, link, e.uid, i, j', k');
    }
  }

  lemma DescribedIsNew(events: seq<Event>, e: Event, link: string, row: Row, i: nat, j: nat, known: Option<PacketArrivalInfo>)
    requires Explains(events, link, e.uid, known) && Describes(events + [e], link, row, i, j, |events|)
    ensures e.link == link && PacketLogs(known, e) == Some(row)
  {
    var all := events + [e];
    var n := |events|;
    assert all[n] == e && row.id == e.uid;
    assert forall h {:trigger events[h]} :: 0 <= h < n ==> all[h] == events[h];
    assert FirstEnqueue(events, link, e.uid, i);
    assert LastDequeue(events, link, e.uid, i, j, n);
    forall j': nat, k': nat
      ensures !Deliverable(events, link, e.uid, i, j', k')
    {
      DeliverableGrows(events, e, link, e.uid, i, j', k');
    }
    FirstIsExplained(events, link, e.uid, i, known);
  }

  /** The event that explains an entry is the packet's first enqueue, which is unique. */
  lemma FirstIsExplained(events: seq<Event>, link: string, uid: nat, i: nat, known: Option<PacketArrivalInfo>)
    requires Explains(events, link, uid, known) && FirstEnqueue(events, link, uid, i)
    ensures known.Some? && ExplainedFrom(events, link, uid, known.value, i)
  {
  }

  /** No packet is logged twice on a link. */
  lemma {:induction false} LoggedOnce(events: seq<Event>, link: string)
    ensures forall a, b :: 0 <= a < b < |LinkRows(events, link)| ==> LinkRows(events, link)[a].id != LinkRows(events, link)[b].id
    ensures forall row :: row in LinkRows(events, link) ==>
      row.id >= 0 && Known(events, link, row.id).Some? && Known(events, link, row.id).value.logged
    decreases |events|
  {
    hide LinkRows, Known, Logs;
    if events == [] {
      NoRows(link);
    } else {
      var (front, e) := (events[..|events| - 1], events[|events| - 1]);
      assert events == front + [e];
      LoggedOnce(front, link);
      RowsAfter(front, e, link);
      forall row | row in LinkRows(front, link)
        ensures Known(events, link, row.id).Some? && Known(events, link, row.id).value.logged
      {
        KnownAfter(front, e, link, row.id);
      }
      KnownAfter(front, e, link, e.uid);
    }
  }

  lemma NoRows(link: string)
    ensures LinkRows([], link) == []
  {
  }

  /** Once logged, an entry never changes. */
  lemma {:induction false} LoggedIsFinal(events: seq<Event>, more: seq<Event>, link: string, uid: nat)
    requires Known(events, link, uid).Some? && Known(events, link, uid).value.logged
    ensures Known(events + more, link, uid) == Known(events, link, uid)
    decreases |more|
  {
    hide Known;
    if more == [] {
      assert events + more == events;
    } else {
      var (front, e) := (more[..|more| - 1], more[|more| - 1]);
      LoggedIsFinal(events, front, link, uid);
      assert events + more == (events + front) + [e];
      KnownAfter(events + front, e, link, uid);
    }
  }

  // ---------- with a clock ----------

  /** The simulator's clock starts at 0 and never goes back. */
  ghost predicate Clocked(events: seq<Event>) {
    && (forall h :: 0 <= h < |events| ==> events[h].now >= 0)
    && (forall g, h :: 0 <= g < h < |events| ==> events[g].now <= events[h].now)
  }

  predicate WellTimedRow(row: Row) {
    row.size >= 0 && 0 <= row.enqueueTime <= row.dequeueTime <= row.arriveTime && row.dequeueTime > 0
  }

  /** Every row of a clocked run is well timed. */
  lemma RowsWellTimed(events: seq<Event>, link: string)
    requires Clocked(events)
    ensures forall row :: row in LinkRows(events, link) ==> WellTimedRow(row)
  {
    forall row | row in LinkRows(events, link)
      ensures WellTimedRow(row)
    {
      RowsDescribeRun(events, link, row);
      var i: nat, j: nat, k: nat :| Describes(events, link, row, i, j, k);
    }
  }

  ghost predicate Passed(events: seq<Event>, link: string, uid: nat, i: nat, j: nat, k: nat) {
    && i < j < k < |events|
    && events[i].Enqueue? && Concerns(events[i], link, uid)
    && events[j].Dequeue? && Concerns(events[j], link, uid) && events[j].now > 0
    && events[k].Receive? && Concerns(events[k], link, uid)
  }

  /** In a clocked run a packet is logged exactly when it was enqueued, then dequeued after time 0, then received. */
  lemma LoggedWhenPassed(events: seq<Event>, link: string, uid: nat)
    requires Clocked(events)
    ensures (exists row :: row in LinkRows(events, link) && row.id == uid) <==>
            exists i: nat, j: nat, k: nat :: Passed(events, link, uid, i, j, k)
  {
    if row :| row in LinkRows(events, link) && row.id == uid {
      RowsDescribeRun(events, link, row);
      var i: nat, j: nat, k: nat :| Describes(events, link, row, i, j, k);
      assert Passed(events, link, uid, i, j, k);
    }
    if i: nat, j: nat, k: nat :| Passed(events, link, uid, i, j, k) {
      var i' := FirstOf(events, link, uid, i);
      var j' := LastOf(events, link, uid, i', j, k);
      assert Deliverable(events, link, uid, i', j', k);
      var m, n := FirstDelivery(events, link, uid, i', j', k);
      var row := Row(events[i'].uid, events[i'].size, events[i'].now, events[m].now, events[n].now);
      assert Describes(events, link, row, i', m, n);
      RowsDescribeRun(events, link, row);
    }
  }

  lemma {:induction false} FirstOf(events: seq<Event>, link: string, uid: nat, i: nat) returns (first: nat)
    requires i < |events| && events[i].Enqueue? && Concerns(events[i], link, uid)
    ensures first <= i && FirstEnqueue(events, link, uid, first)
    decreases i
  {
    if h: nat :| h < i && events[h].Enqueue? && Concerns(events[h], link, uid) {
      first := FirstOf(events, link, uid, h);
    } else {
      first := i;
    }
  }

  lemma {:induction false} LastOf(events: seq<Event>, link: string, uid: nat, i: nat, j: nat, k: nat) returns (last: nat)
    requires i < j < k <= |events| && events[j].Dequeue? && Concerns(events[j], link, uid)
    ensures j <= last && LastDequeue(events, link, uid, i, last, k)
    decreases k - j
  {
    if h: nat :| j < h < k && events[h].Dequeue? && Concerns(events[h], link, uid) {
      last := LastOf(events, link, uid, i, h, k);
    } else {
      last := j;
    }
  }

  lemma {:induction false} FirstDelivery(events: seq<Event>, link: string, uid: nat, i: nat, j: nat, k: nat) returns (m: nat, n: nat)
    requires Deliverable(events, link, uid, i, j, k)
    ensures Deliverable(events, link, uid, i, m, n)
    ensures forall j': nat, k': nat :: k' < n ==> !Deliverable(events, link, uid, i, j', k')
    decreases k
  {
    if j': nat, k': nat :| k' < k && Deliverable(events, link, uid, i, j', k') {
      m, n := FirstDelivery(events, link, uid, i, j', k');
    } else {
      m, n := j, k;
    }
  }

  /** The sentinel at work: a packet that leaves the queue at time 0 is received but never logged. */
  lemma DequeuedAtZero(link: string)
    ensures var events := [Enqueue(link, 7, 100, 0), Dequeue(link, 7, 0), Receive(link, 7, 5)];
      Clocked(events) && LinkRows(events, link) == []
  {
    var events := [Enqueue(link, 7, 100, 0), Dequeue(link, 7, 0), Receive(link, 7, 5)];
    if LinkRows(events, link) != [] {
      var row := LinkRows(events, link)[0];
      assert row in LinkRows(events, link);
      RowsDescribeRun(events, link, row);
    }
  }
}
