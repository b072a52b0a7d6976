/**
  The traffic source of a simulated host (`PoissonWorkloadApp` in ns3/scratch/DCN.cc): messages add to the
  bytes pending for a destination, and a send loop hands them to that destination's socket, which may take
  part of what it is offered or refuse. Random choices are inputs; what the socket takes is arbitrary.
*/
module SendLoop {
  const MAX_OFFER: nat := 64 * 1024

  /** One call of `Send`: what was offered and what came back. */
  datatype Exchange = Exchange(offer: nat, result: int)

  /** The bytes of `pending` that a sequence of calls leaves. */
  function Left(pending: nat, talk: seq<Exchange>): int {
    if talk == [] then pending
    else
      var result := talk[|talk| - 1].result;
      Left(pending, talk[..|talk| - 1]) - if result > 0 then result else 0
  }

  function Offer(pending: int): int {
    if pending < MAX_OFFER then pending else MAX_OFFER
  }

  /** Each call offers what is then left, at most `MAX_OFFER` of it. */
  ghost predicate OffersLeft(pending: nat, talk: seq<Exchange>) {
    forall i :: 0 <= i < |talk| ==> talk[i].offer == Offer(Left(pending, talk[..i])) > 0
  }

  /** Every call offers what is left, and 65536 bytes of it if more is left. */
  lemma OffersAre(pending: nat, talk: seq<Exchange>, i: nat)
    requires OffersLeft(pending, talk) && i < |talk|
    ensures talk[i].offer == if Left(pending, talk[..i]) < 65536 then Left(pending, talk[..i]) else 65536
  {
  }

  /** A socket that takes every offer whole sees the pending bytes in pieces of 65536 and a rest. */
  lemma {:induction false} LeftOfWhole(pending: nat, talk: seq<Exchange>, i: nat)
    requires OffersLeft(pending, talk) && i < |talk| && forall j :: 0 <= j < |talk| ==> talk[j].result == talk[j].offer
    ensures Left(pending, talk[..i]) == pending - 65536 * i > 0
    decreases i
  {
    if i > 0 {
      LeftOfWhole(pending, talk, i - 1);
      assert talk[..i][..i - 1] == talk[..i - 1];
      OffersAre(pending, talk, i - 1);
      assert talk[i].offer == Offer(Left(pending, talk[..i])) > 0;
    }
  }

  lemma WholePieces(pending: nat, talk: seq<Exchange>, after: nat)
    requires Drains(pending, talk, after) && forall j :: 0 <= j < |talk| ==> talk[j].result == talk[j].offer
    ensures after == 0 && |talk| == (pending + 65535) / 65536
    ensures forall i :: 0 <= i < |talk| - 1 ==> talk[i].offer == 65536
    ensures talk != [] ==> talk[|talk| - 1].offer == pending - 65536 * (|talk| - 1)
  {
    var n := |talk|;
    if n == 0 {
      assert pending == 0;
    } else {
      assert talk[..n - 1] + [talk[n - 1]] == talk;
      LeftOfWhole(pending, talk, n - 1);
      OffersAre(pending, talk, n - 1);
      forall i | 0 <= i < n - 1
        ensures talk[i].offer == 65536
      {
        LeftOfWhole(pending, talk, i);
        LeftOfWhole(pending, talk, i + 1);
        OffersAre(pending, talk, i);
      }
    }
  }

  predicate AllTaken(talk: seq<Exchange>) {
    forall i :: 0 <= i < |talk| ==> talk[i].result > 0
  }

  /** The calls drain `pending` down to `after`: they stop at the first refusal, and without one only at 0. */
  ghost predicate Drains(pending: nat, talk: seq<Exchange>, after: nat) {
    && OffersLeft(pending, talk) && after == Left(pending, talk)
    && if after == 0 then AllTaken(talk)
       else talk != [] && AllTaken(talk[..|talk| - 1]) && talk[|talk| - 1].result <= 0
  }

  lemma NoOffers(pending: nat)
    ensures OffersLeft(pending, []) && AllTaken([]) && Left(pending, []) == pending
  {
  }

  lemma Regroup(start: seq<Exchange>, talk: seq<Exchange>, e: Exchange)
    ensures start + talk + [e] == start + (talk + [e])
  {
  }

  lemma Suffix(start: seq<Exchange>, talk: seq<Exchange>)
    ensures start <= start + talk && (start + talk)[|start|..] == talk
  {
  }

  lemma EndsEmpty(pending: nat, talk: seq<Exchange>)
    requires OffersLeft(pending, talk) && AllTaken(talk) && Left(pending, talk) == 0
    ensures Drains(pending, talk, 0)
  {
  }

  lemma StillTaken(talk: seq<Exchange>, e: Exchange)
    requires AllTaken(talk) && e.result > 0
    ensures AllTaken(talk + [e])
  {
  }

  lemma EndsRefused(pending: nat, talk: seq<Exchange>, e: Exchange)
    requires OffersLeft(pending, talk + [e]) && AllTaken(talk) && e.result <= 0 && Left(pending, talk) > 0
    requires Left(pending, talk + [e]) == Left(pending, talk)
    ensures Drains(pending, talk + [e], Left(pending, talk))
  {
  }

  /** A TCP socket as the application sees it. `accepted` counts the bytes it has taken, `log` lists the calls;
      `atClose` is what it had accepted when it was closed. Nothing is sent to a closed socket. */
  class Socket {
    ghost var accepted: nat
    ghost var log: seq<Exchange>
    ghost var closed: bool
    ghost var atClose: nat

    constructor ()
      ensures accepted == 0 && log == [] && !closed
    {
      accepted, log, closed, atClose := 0, [], false, 0;
    }

    method Close()
      modifies this`closed, this`atClose
      ensures closed && atClose == accepted
    {
      closed, atClose := true, accepted;
    }

    /** Takes any part of the offer, or refuses with a result of at most 0. */
    method Send(size: nat) returns (sent: int)
      requires 0 < size <= MAX_OFFER && !closed
      modifies this
      ensures closed == old(closed) && atClose == old(atClose)
      ensures -1 <= sent <= size && log == old(log) + [Exchange(size, sent)]
      ensures accepted == old(accepted) + if sent > 0 then sent else 0
    {
      sent :| -1 <= sent <= size;
      log := log + [Exchange(size, sent)];
      if sent > 0 {
        accepted := accepted + sent;
      }
    }
  }

  /** What can happen to an application once started; a callback may come from any socket, even a closed one. */
  datatype Event =
    | Message(destinationIndex: nat, bytes: nat)
    | SendReady(socket: Socket)
    | Connected(socket: Socket)
    | Stop

  class PoissonWorkloadApp {
    const sourceHostId: nat
    const hostCount: nat
    var running: bool
    var destinationHostIds: seq<nat>
    var socketByHost: seq<Socket?>
    var pendingBytesByHost: seq<nat>
    /** All bytes of all messages so far, per destination. */
    ghost var generated: seq<nat>

    ghost function Sockets(): set<Socket>
      reads this
    {
      set s: Socket | s in socketByHost
    }

    /** While running: one open socket per host but the source, no two alike; nothing pending for the source;
        and for every destination, bytes generated = bytes accepted + bytes pending. Otherwise: nothing at all. */
    ghost predicate Valid()
      reads this, Sockets()
    {
      if running then
        && |socketByHost| == |pendingBytesByHost| == |generated| == hostCount
        && (forall h :: 0 <= h < hostCount ==> (socketByHost[h] == null <==> h == sourceHostId))
        && (forall g, h :: 0 <= g < h < hostCount ==> socketByHost[g] != socketByHost[h])
        && (forall h: nat :: h in destinationHostIds <==> h < hostCount && h != sourceHostId)
        && (sourceHostId < hostCount ==> pendingBytesByHost[sourceHostId] == 0 == generated[sourceHostId])
        && (forall h :: 0 <= h < hostCount && h != sourceHostId ==> Conserved(h))
      else
        socketByHost == [] && pendingBytesByHost == [] && destinationHostIds == []
    }

    ghost predicate Conserved(h: nat)
      requires h < |socketByHost| && h < |pendingBytesByHost| && h < |generated|
      reads this, Sockets()
    {
      && socketByHost[h] != null && !socketByHost[h].closed
      && generated[h] == socketByHost[h].accepted + pendingBytesByHost[h]
    }

    constructor (sourceHostId: nat, hostCount: nat)
      ensures Valid() && !running && this.sourceHostId == sourceHostId && this.hostCount == hostCount
    {
      this.sourceHostId, this.hostCount := sourceHostId, hostCount;
      running, destinationHostIds, socketByHost, pendingBytesByHost, generated := false, [], [], [], [];
    }

    method StartApplication()
      requires Valid() && !running
      modifies this
      ensures Valid() && running && (forall s :: s in Sockets() ==> fresh(s))
      ensures forall h :: 0 <= h < hostCount ==> pendingBytesByHost[h] == 0 == generated[h]
      ensures forall i, j :: 0 <= i < j < |destinationHostIds| ==> destinationHostIds[i] < destinationHostIds[j]
    {
      running := true;
      generated := seq(hostCount, _ => 0);
      pendingBytesByHost := seq(hostCount, _ => 0);
      var sockets: seq<Socket?> := [];
      var destinations: seq<nat> := [];
      var hostId := 0;
      while hostId < hostCount
        invariant 0 <= hostId <= hostCount == |sockets| + (hostCount - hostId)
        invariant forall h :: 0 <= h < hostId ==> (sockets[h] == null <==> h == sourceHostId)
        invariant forall g, h :: 0 <= g < h < hostId ==> sockets[g] != sockets[h]
        invariant forall h :: 0 <= h < hostId && sockets[h] != null ==>
          fresh(sockets[h]) && sockets[h].accepted == 0 && !sockets[h].closed
        invariant forall h: nat :: h in destinations <==> h < hostId && h != sourceHostId
        invariant forall i, j :: 0 <= i < j < |destinations| ==> destinations[i] < destinations[j]
        invariant forall i :: 0 <= i < |destinations| ==> destinations[i] < hostId
        modifies {}
      {
        if hostId == sourceHostId {
          sockets := sockets + [null];
        } else {
          var socket := new Socket();
          sockets := sockets + [socket];
          destinations := destinations + [hostId];
        }
        hostId := hostId + 1;
      }
      socketByHost, destinationHostIds := sockets, destinations;
    }

    method StopApplication()
      requires Valid()
      modifies this`running, this`socketByHost, this`pendingBytesByHost, this`destinationHostIds
      modifies Sockets()`closed, Sockets()`atClose
      ensures Valid() && !running
      ensures forall s :: s in old(Sockets()) ==> s.closed && s.atClose == s.accepted
    {
      running := false;
      var h := 0;
      while h < |socketByHost|
        invariant !running && 0 <= h <= |socketByHost| == |old(socketByHost)|
        invariant forall g :: h <= g < |socketByHost| ==> socketByHost[g] == old(socketByHost)[g]
        invariant forall g :: 0 <= g < h && old(socketByHost)[g] != null ==>
          old(socketByHost)[g].closed && old(socketByHost)[g].atClose == old(socketByHost)[g].accepted
      {
        var socket := socketByHost[h];
        if socket != null {
          assert socket in old(Sockets());
          socket.Close();
          socketByHost := socketByHost[h := null];
        }
        h := h + 1;
      }
      socketByHost, pendingBytesByHost, destinationHostIds := [], [], [];
    }

    method FindDestinationHostId(socket: Socket) returns (found: bool, host: nat)
      ensures found ==> host < |socketByHost| && socketByHost[host] == socket
      ensures !found <==> socket !in socketByHost
    {
      host := 0;
      while host < |socketByHost|
        invariant 0 <= host <= |socketByHost|
        invariant forall h :: 0 <= h < host ==> socketByHost[h] != socket
      {
        if socketByHost[host] == socket {
          return true, host;
        }
        host := host + 1;
      }
      return false, 0;
    }

    /** Offers the pending bytes in pieces until none are left or the socket refuses. */
    method TrySend(h: nat)
      requires running && Valid() && h < hostCount
      modifies this`pendingBytesByHost, Sockets()
      ensures running && Valid()
      ensures forall g :: 0 <= g < hostCount && g != h ==> pendingBytesByHost[g] == old(pendingBytesByHost)[g]
      ensures forall s :: s in Sockets() && s != socketByHost[h] ==> s.accepted == old(s.accepted) && s.log == old(s.log)
      ensures h != sourceHostId ==>
        var socket := socketByHost[h];
        old(socket.log) <= socket.log
        && Drains(old(pendingBytesByHost)[h], socket.log[|old(socket.log)|..], pendingBytesByHost[h])
    {
      var socket := socketByHost[h];
      if socket == null {
        return;
      }
      assert socket in Sockets() && Conserved(h);
      OfferAll(h, socket);
      forall g | 0 <= g < hostCount && g != sourceHostId
        ensures Conserved(g)
      {
        assert old(Conserved(g));
      }
    }

    /** The loop of `TrySend`. */
    method OfferAll(h: nat, socket: Socket)
      requires h < |pendingBytesByHost| && !socket.closed
      modifies this`pendingBytesByHost, socket
      ensures socket.closed == old(socket.closed) && socket.atClose == old(socket.atClose)
      ensures |pendingBytesByHost| == |old(pendingBytesByHost)|
      ensures forall g :: 0 <= g < |pendingBytesByHost| && g != h ==> pendingBytesByHost[g] == old(pendingBytesByHost)[g]
      ensures socket.accepted + pendingBytesByHost[h] == old(socket.accepted + pendingBytesByHost[h])
      ensures old(socket.log) <= socket.log
      ensures Drains(old(pendingBytesByHost)[h], socket.log[|old(socket.log)|..], pendingBytesByHost[h])
    {
      ghost var pending := pendingBytesByHost[h];
      ghost var talk := [];
      ghost var start := socket.log;
      hide OffersLeft, Drains, AllTaken, Left;
      NoOffers(pending);
      while pendingBytesByHost[h] > 0
        invariant |pendingBytesByHost| == |old(pendingBytesByHost)|
        invariant forall g :: 0 <= g < |pendingBytesByHost| && g != h ==> pendingBytesByHost[g] == old(pendingBytesByHost)[g]
        invariant socket.log == start + talk && OffersLeft(pending, talk)
        invariant pendingBytesByHost[h] == Left(pending, talk) && AllTaken(talk)
        invariant !socket.closed && socket.atClose == old(socket.atClose)
        invariant socket.accepted + pendingBytesByHost[h] == old(socket.accepted) + pending
        decreases pendingBytesByHost[h]
      {
        var bytesToSend := if pendingBytesByHost[h] < MAX_OFFER then pendingBytesByHost[h] else MAX_OFFER;
        var sent := socket.Send(bytesToSend);
        ghost var e := Exchange(bytesToSend, sent);
        OneMoreOffer(pending, talk, e);
        Regroup(start, talk, e);
        if sent <= 0 {
          EndsRefused(pending, talk, e);
          talk := talk + [e];
          break;
        }
        StillTaken(talk, e);
        talk := talk + [e];
        pendingBytesByHost := pendingBytesByHost[h := pendingBytesByHost[h] - sent];
      }
      if pendingBytesByHost[h] == 0 {
        EndsEmpty(pending, talk);
      }
      Suffix(start, talk);
    }

    /** A message arrives: its bytes become pending for the chosen destination, then are offered. */
    method GenerateMessage(destinationIndex: nat, messageBytes: nat)
      requires Valid() && (destinationHostIds != [] ==> destinationIndex < |destinationHostIds|)
      modifies this`pendingBytesByHost, this`generated, Sockets()
      ensures Valid() && running == old(running)
      ensures running && destinationHostIds != [] ==>
        var host := destinationHostIds[destinationIndex];
        && host in destinationHostIds
        && var socket := socketByHost[host];
        && generated == old(generated)[host := old(generated)[host] + messageBytes]
        && (forall h :: 0 <= h < hostCount && h != host ==> pendingBytesByHost[h] == old(pendingBytesByHost)[h])
        && (messageBytes > 0 ==>
              && old(socket.log) <= socket.log
              && Drains(old(pendingBytesByHost)[host] + messageBytes, socket.log[|old(socket.log)|..], pendingBytesByHost[host]))
        && (messageBytes == 0 ==> pendingBytesByHost == old(pendingBytesByHost) && socket.log == old(socket.log))
      ensures !running || destinationHostIds == [] ==> generated == old(generated) && pendingBytesByHost == old(pendingBytesByHost)
    {
      if !running || |destinationHostIds| == 0 {
        return;
      }
      var destinationHostId := destinationHostIds[destinationIndex];
      assert destinationHostId in destinationHostIds;
      if messageBytes > 0 {
        pendingBytesByHost := pendingBytesByHost[destinationHostId := pendingBytesByHost[destinationHostId] + messageBytes];
        generated := generated[destinationHostId := generated[destinationHostId] + messageBytes];
        forall g | 0 <= g < hostCount && g != sourceHostId
          ensures Conserved(g)
        {
          assert old(Conserved(g));
        }
        TrySend(destinationHostId);
      }
    }

    /** The socket has room again (HandleSend), or has connected (HandleConnect): the same reaction. */
    method HandleSend(socket: Socket)
      requires Valid()
      modifies this`pendingBytesByHost, Sockets()
      ensures Valid() && running == old(running)
      ensures forall h :: 0 <= h < |socketByHost| ==>
        if socketByHost[h] == socket then
          old(socket.log) <= socket.log
          && Drains(old(pendingBytesByHost)[h], socket.log[|old(socket.log)|..], pendingBytesByHost[h])
        else pendingBytesByHost[h] == old(pendingBytesByHost)[h]
      ensures !running ==> pendingBytesByHost == []
    {
      var found, destinationHostId := FindDestinationHostId(socket);
      if found {
        TrySend(destinationHostId);
      }
    }

    method HandleConnect(socket: Socket)
      requires Valid()
      modifies this`pendingBytesByHost, Sockets()
      ensures Valid() && running == old(running)
      ensures forall h :: 0 <= h < |socketByHost| ==>
        if socketByHost[h] == socket then
          old(socket.log) <= socket.log
          && Drains(old(pendingBytesByHost)[h], socket.log[|old(socket.log)|..], pendingBytesByHost[h])
        else pendingBytesByHost[h] == old(pendingBytesByHost)[h]
      ensures !running ==> pendingBytesByHost == []
    {
      var found, destinationHostId := FindDestinationHostId(socket);
      if found {
        TrySend(destinationHostId);
      }
    }

    /** One event. While the application runs, it adds the event's bytes to what has been generated, and a stop
        closes every socket; a stopped application ignores it. */
    method Handle(e: Event)
      requires Valid() && (running && e.Message? ==> e.destinationIndex < |destinationHostIds|)
      modifies this, Sockets()
      ensures Valid() && (running <==> old(running) && e != Stop)
      ensures running ==> socketByHost == old(socketByHost) && destinationHostIds == old(destinationHostIds)
      ensures old(running) ==>
        && |generated| == hostCount == |old(socketByHost)|
        && (forall h :: 0 <= h < hostCount ==> generated[h] == old(generated)[h] + BytesOf(e, old(destinationHostIds), h))
        && (forall h :: 0 <= h < hostCount && h != sourceHostId ==>
              old(socketByHost)[h] != null && old(socketByHost)[h].accepted <= generated[h])
      ensures old(running) && e == Stop ==> forall s :: s in old(Sockets()) ==> s.closed && s.accepted == s.atClose
      ensures !old(running) ==> generated == old(generated)
    {
      hide Drains;
      if running { BytesConserved(); }
      match e {
        case Message(destinationIndex, bytes) => GenerateMessage(destinationIndex, bytes);
        case SendReady(socket) => HandleSend(socket);
        case Connected(socket) => HandleConnect(socket);
        case Stop => StopApplication();
      }
      if running { BytesConserved(); }
    }

    /** Events after a stop have no effect, whichever socket a callback comes from: no socket is touched,
        nothing is generated and nothing is pending. */
    method RunStopped(events: seq<Event>)
      requires Valid() && !running
      modifies this
      ensures Valid() && !running
      ensures generated == old(generated) && pendingBytesByHost == []
    {
      var i := 0;
      while i < |events|
        invariant 0 <= i <= |events| && Valid() && !running && generated == old(generated)
      {
        assert Sockets() == {};
        Handle(events[i]);
        i := i + 1;
      }
    }

    /** For every destination, the bytes of its messages so far are those accepted and those pending. */
    lemma BytesConserved()
      requires Valid() && running
      ensures |socketByHost| == |pendingBytesByHost| == |generated| == hostCount
      ensures forall h :: 0 <= h < hostCount && h != sourceHostId ==>
        socketByHost[h] != null && generated[h] == socketByHost[h].accepted + pendingBytesByHost[h]
    {
      forall h | 0 <= h < hostCount && h != sourceHostId
        ensures socketByHost[h] != null && generated[h] == socketByHost[h].accepted + pendingBytesByHost[h]
      {
        assert Conserved(h);
      }
    }

    /** Any sequence of events. While the application runs, the bytes of a destination's messages are those
        its socket has accepted and those still pending, and the source host has none pending. Once stopped,
        nothing is pending, every socket is closed, and what it has accepted, at most what its messages
        brought before the stop, is what it had accepted when it was closed. */
    method Run(events: seq<Event>)
      requires Valid() && running && (forall h :: 0 <= h < hostCount ==> generated[h] == 0)
      requires forall e :: e in events && e.Message? ==> e.destinationIndex < |destinationHostIds|
      modifies this, Sockets()
      ensures Valid() && (running <==> Stop !in events)
      ensures running ==> socketByHost == old(socketByHost)
      ensures running ==> forall h :: 0 <= h < hostCount && h != sourceHostId ==>
        socketByHost[h] != null
        && MessageBytes(events, old(destinationHostIds), h) == socketByHost[h].accepted + pendingBytesByHost[h]
      ensures running && sourceHostId < hostCount ==> pendingBytesByHost[sourceHostId] == 0
      ensures forall h :: 0 <= h < hostCount && h != sourceHostId ==>
        var socket := old(socketByHost)[h];
        && socket != null && socket.accepted <= MessageBytes(events, old(destinationHostIds), h)
        && (!running ==> socket.closed && socket.accepted == socket.atClose)
    {
      hide MessageBytes, BytesOf;
      assert forall h :: MessageBytes([], destinationHostIds, h) == 0 by { NoMessages(destinationHostIds); }
      BytesConserved();
      var i := 0;
      while i < |events| && running
        invariant 0 <= i <= |events| && Valid() && (running <==> Stop !in events[..i])
        invariant running ==> socketByHost == old(socketByHost) && destinationHostIds == old(destinationHostIds)
        invariant |generated| == hostCount == |old(socketByHost)|
        invariant forall h :: 0 <= h < hostCount ==> generated[h] == MessageBytes(events[..i], old(destinationHostIds), h)
        invariant forall h :: 0 <= h < hostCount && h != sourceHostId ==>
          old(socketByHost)[h] != null && old(socketByHost)[h].accepted <= generated[h]
        invariant !running ==> forall s :: s in old(Sockets()) ==> s.closed && s.accepted == s.atClose
      {
        OneMoreEvent(events, i);
        forall h { OneMoreMessage(events, i, destinationHostIds, h); }
        assert Sockets() == old(Sockets());
        Handle(events[i]);
        i := i + 1;
      }
      if running {
        assert events[..i] == events;
        BytesConserved();
      } else {
        assert events == events[..i] + events[i..];
        forall h | 0 <= h < hostCount
          ensures generated[h] == MessageBytes(events, old(destinationHostIds), h)
        {
          NothingAfterStop(events[..i], events[i..], old(destinationHostIds), h);
        }
        RunStopped(events[i..]);
        forall h | 0 <= h < hostCount && h != sourceHostId
          ensures
            var socket := old(socketByHost)[h];
            && socket != null && socket.closed && socket.accepted == socket.atClose
            && socket.accepted <= MessageBytes(events, old(destinationHostIds), h)
        {
          assert old(socketByHost)[h] in old(Sockets());
        }
      }
    }
  }

  /** Messages after a stop bring nothing. */
  lemma {:induction false} NothingAfterStop(before: seq<Event>, after: seq<Event>, destinations: seq<nat>, h: nat)
    requires Stop in before
    ensures MessageBytes(before + after, destinations, h) == MessageBytes(before, destinations, h)
    decreases |after|
  {
    if after == [] {
      assert before + after == before;
    } else {
      assert (before + after)[..|before + after| - 1] == before + after[..|after| - 1];
      NothingAfterStop(before, after[..|after| - 1], destinations, h);
    }
  }

  lemma OneMoreEvent(events: seq<Event>, i: nat)
    requires i < |events|
    ensures events[i] in events && events[..i + 1] == events[..i] + [events[i]] && events[..i + 1][..i] == events[..i]
  {
  }

  lemma NoMessages(destinations: seq<nat>)
    ensures forall h :: MessageBytes([], destinations, h) == 0
  {
  }

  lemma OneMoreMessage(events: seq<Event>, i: nat, destinations: seq<nat>, h: nat)
    requires i < |events| && Stop !in events[..i]
    ensures MessageBytes(events[..i + 1], destinations, h) == MessageBytes(events[..i], destinations, h)
      + BytesOf(events[i], destinations, h)
  {
    OneMoreEvent(events, i);
  }

  /** One more call keeps the offers right. */
  lemma OneMoreOffer(pending: nat, talk: seq<Exchange>, e: Exchange)
    requires OffersLeft(pending, talk) && e.offer == Offer(Left(pending, talk)) > 0
    ensures OffersLeft(pending, talk + [e]) && Left(pending, talk + [e]) == Left(pending, talk) - if e.result > 0 then e.result else 0
  {
    var more := talk + [e];
    assert more[..|talk|] == talk;
    hide Left;
    forall i | 0 <= i < |more|
      ensures more[i].offer == Offer(Left(pending, more[..i])) > 0
    {
      if i < |talk| { assert more[..i] == talk[..i] && more[i] == talk[i]; }
    }
  }

  /** The bytes an event brings for host `h`. */
  function BytesOf(e: Event, destinations: seq<nat>, h: nat): nat {
    if e.Message? && e.destinationIndex < |destinations| && destinations[e.destinationIndex] == h then e.bytes else 0
  }

  /** The bytes of all messages for host `h` before the application stops. */
  function MessageBytes(events: seq<Event>, destinations: seq<nat>, h: nat): nat {
    if events == [] then 0
    else
      var (front, e) := (events[..|events| - 1], events[|events| - 1]);
      MessageBytes(front, destinations, h) + if Stop in front then 0 else BytesOf(e, destinations, h)
  }
}
