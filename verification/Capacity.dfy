/**
  Queue capacities. The simulator clamps rate * round-trip time to 1 .. 2^32 - 1 bytes; the browser
  recomputes the value from its own copy of the topology without the upper clamp
  (frontend/app/page.tsx). Rates and delays are exact numbers here.
*/
module Capacity {
  import opened Graphs
  import opened Bfs
  import opened HopTable
  import opened Text
  import opened DcnTopo

  /** The data rates of the three layers of links, in bits per second, and how many layers are configured. */
  datatype LinkRates = LinkRates(layers: nat, serverToTor: nat, torToAgg: nat, aggToCore: nat)

  /** The rate of a link between nodes of two kinds; both programs have these three cases. */
  function RateForKinds(rates: LinkRates, a: NodeKind, b: NodeKind, fallback: nat): nat {
    if (a.Host? && b.Tor?) || (a.Tor? && b.Host?) then rates.serverToTor
    else if (a.Tor? && b.Agg?) || (a.Agg? && b.Tor?) then rates.torToAgg
    else if (a.Agg? && b.Core?) || (a.Core? && b.Agg?) then rates.aggToCore
    else fallback
  }

  /** The simulator falls back on the server rate, the browser on the slowest rate of the configured layers. */
  function RateForLink(t: DcnTopo, link: Link, rates: LinkRates): nat {
    RateForKinds(rates, t.KindOf(link.from), t.KindOf(link.to), rates.serverToTor)
  }

  function LinkRateForNodeKinds(rates: LinkRates, a: NodeKind, b: NodeKind): nat {
    RateForKinds(rates, a, b, Slowest(rates))
  }

  function Slowest(rates: LinkRates): nat {
    var m := if rates.layers >= 2 && rates.torToAgg < rates.serverToTor then rates.torToAgg else rates.serverToTor;
    if rates.layers >= 3 && rates.aggToCore < m then rates.aggToCore else m
  }

  /** The slowest rate is the least one of the layers that are configured. */
  lemma SlowestIsLeast(rates: LinkRates)
    ensures Slowest(rates) <= rates.serverToTor
    ensures rates.layers >= 2 ==> Slowest(rates) <= rates.torToAgg
    ensures rates.layers >= 3 ==> Slowest(rates) <= rates.aggToCore
    ensures || Slowest(rates) == rates.serverToTor
            || (rates.layers >= 2 && Slowest(rates) == rates.torToAgg)
            || (rates.layers >= 3 && Slowest(rates) == rates.aggToCore)
  {
  }

  /** Links of other kinds get the simulator's server rate, and the browser's slowest one. */
  lemma RateOtherwise(t: DcnTopo, link: Link, rates: LinkRates)
    requires !AdjacentKinds(t.KindOf(link.from), t.KindOf(link.to))
    ensures RateForLink(t, link, rates) == rates.serverToTor
    ensures LinkRateForNodeKinds(rates, t.KindOf(link.from), t.KindOf(link.to)) == Slowest(rates)
  {
  }

  predicate AdjacentKinds(a: NodeKind, b: NodeKind) {
    match (a, b)
    case (Host, Tor) => true
    case (Tor, Host) => true
    case (Tor, Agg) => true
    case (Agg, Tor) => true
    case (Agg, Core) => true
    case (Core, Agg) => true
    case _ => false
  }

  /** A link between neighbouring layers has the rate of its layer in both directions, in both programs. */
  lemma RateIsOfLayer(t: DcnTopo, link: Link, rates: LinkRates)
    requires AdjacentKinds(t.KindOf(link.from), t.KindOf(link.to))
    ensures RateForLink(t, link, rates) == RateForLink(t, Link(link.to, link.from), rates)
         == LinkRateForNodeKinds(rates, t.KindOf(link.from), t.KindOf(link.to))
         == if Host in {t.KindOf(link.from), t.KindOf(link.to)} then rates.serverToTor
            else if Core in {t.KindOf(link.from), t.KindOf(link.to)} then rates.aggToCore
            else rates.torToAgg
  {
  }

  const MAX_UINT32: nat := 0xFFFF_FFFF

  /** Bytes in flight over a round trip of `hops` links each way. */
  function RoundTripBytes(rate: nat, hops: nat, delaySeconds: real): real {
    rate as real * (2.0 * hops as real * delaySeconds) / 8.0
  }

  function ComputeQueueBytes(rate: nat, hops: nat, delaySeconds: real): nat {
    var queueBytes := RoundTripBytes(rate, hops, delaySeconds);
    var capped := if queueBytes < 1.0 then 1.0 else if queueBytes > MAX_UINT32 as real then MAX_UINT32 as real else queueBytes;
    capped.Floor
  }

  function BrowserQueueBytes(rate: nat, hops: nat, delaySeconds: real): nat {
    var bytes := RoundTripBytes(rate, hops, delaySeconds).Floor;
    if bytes > 1 then bytes else 1
  }

  /** A queue holds what the link sends in a round trip, rounded down, but at least 1 and at most 2^32 - 1 bytes;
      the browser shows the same without the upper bound. */
  lemma QueueHoldsRoundTrip(rate: nat, hops: nat, delaySeconds: real)
    ensures var bytes := ComputeQueueBytes(rate, hops, delaySeconds);
      var eightfold := rate as real * (2.0 * hops as real * delaySeconds);
      && 1 <= bytes <= MAX_UINT32
      && (bytes > 1 ==> bytes as real * 8.0 <= eightfold)
      && (bytes < MAX_UINT32 ==> eightfold < (bytes + 1) as real * 8.0)
    ensures var shown := BrowserQueueBytes(rate, hops, delaySeconds);
      var eightfold := rate as real * (2.0 * hops as real * delaySeconds);
      shown >= 1 && (shown > 1 ==> shown as real * 8.0 <= eightfold) && eightfold < (shown + 1) as real * 8.0
  {
  }

  /** The browser shows the simulator's capacity exactly when a round trip is below 2^32 bytes; from there on the
      simulator is at its clamp and the browser above it. */
  lemma CapacitiesAgree(rate: nat, hops: nat, delaySeconds: real)
    ensures ComputeQueueBytes(rate, hops, delaySeconds) == BrowserQueueBytes(rate, hops, delaySeconds)
       <==> RoundTripBytes(rate, hops, delaySeconds) < 4294967296.0
    ensures RoundTripBytes(rate, hops, delaySeconds) >= 4294967296.0
        ==> ComputeQueueBytes(rate, hops, delaySeconds) == MAX_UINT32 < BrowserQueueBytes(rate, hops, delaySeconds)
  {
  }

  /** 100 Gb/s over 6 hops of a second each: the browser shows 150 GB, the simulator configures 4 GiB less a byte. */
  lemma CapacitiesDiffer()
    ensures ComputeQueueBytes(100000000000, 6, 1.0) == 0xFFFF_FFFF
    ensures BrowserQueueBytes(100000000000, 6, 1.0) == 150000000000
  {
  }

  // ---------- the browser's table, for any topology ----------

  datatype Node = Node(id: string, kind: NodeKind)

  /** A link of the browser's topology, by node ids. */
  datatype NamedLink = NamedLink(from: string, to: string)

  /** Each id stands for the last node that carries it. */
  ghost predicate IsIdIndex(nodes: seq<Node>, idToIndex: map<string, nat>) {
    && (forall id :: id in idToIndex ==> idToIndex[id] < |nodes| && nodes[idToIndex[id]].id == id)
    && (forall i :: 0 <= i < |nodes| ==> nodes[i].id in idToIndex && i <= idToIndex[nodes[i].id])
  }

  ghost predicate LinkFrom(idToIndex: map<string, nat>, links: seq<NamedLink>, u: nat, v: nat) {
    exists link :: link in links && link.from in idToIndex && link.to in idToIndex
      && idToIndex[link.from] == u && idToIndex[link.to] == v
  }

  /** Some named link joins the two node indices; links with an unknown end are ignored. */
  ghost predicate JoinedByName(idToIndex: map<string, nat>, links: seq<NamedLink>, u: nat, v: nat) {
    LinkFrom(idToIndex, links, u, v) || LinkFrom(idToIndex, links, v, u)
  }

  /** The neighbour lists over node indices that the named links stand for. */
  ghost predicate IsNamedAdjacency(nodes: seq<Node>, idToIndex: map<string, nat>, links: seq<NamedLink>, adj: Graph) {
    && |adj| == |nodes|
    && forall u: nat, v: nat :: u < |nodes| ==> (v in adj[u] <==> v < |nodes| && JoinedByName(idToIndex, links, u, v))
  }

  function IndexOf(nodes: seq<Node>): (idToIndex: map<string, nat>)
    ensures IsIdIndex(nodes, idToIndex)
  {
    if nodes == [] then map[]
    else
      var (front, last) := (nodes[..|nodes| - 1], nodes[|nodes| - 1]);
      assert nodes == front + [last];
      IndexOf(front)[last.id := |front|]
  }

  method IndexIds(nodes: seq<Node>) returns (idToIndex: map<string, nat>)
    ensures idToIndex == IndexOf(nodes)
  {
    hide IsIdIndex;
    idToIndex := map[];
    var idx := 0;
    while idx < |nodes|
      invariant 0 <= idx <= |nodes|
      invariant idToIndex == IndexOf(nodes[..idx])
    {
      assert nodes[..idx + 1][..idx] == nodes[..idx];
      idToIndex := idToIndex[nodes[idx].id := idx];
      idx := idx + 1;
    }
    assert nodes[..idx] == nodes;
  }

  lemma OneMoreLink(idToIndex: map<string, nat>, links: seq<NamedLink>, link: NamedLink, u: nat, v: nat)
    ensures JoinedByName(idToIndex, links + [link], u, v) <==>
      JoinedByName(idToIndex, links, u, v)
      || (link.from in idToIndex && link.to in idToIndex
          && ((idToIndex[link.from] == u && idToIndex[link.to] == v) || (idToIndex[link.from] == v && idToIndex[link.to] == u)))
  {
  }

  /** The neighbour lists in the order in which the links name them. */
  function NamedGraph(nodes: seq<Node>, idToIndex: map<string, nat>, links: seq<NamedLink>): (adj: Graph)
    requires IsIdIndex(nodes, idToIndex)
    ensures |adj| == |nodes|
  {
    if links == [] then seq(|nodes|, _ => [])
    else
      var link := links[|links| - 1];
      var adj := NamedGraph(nodes, idToIndex, links[..|links| - 1]);
      if link.from in idToIndex && link.to in idToIndex then
        AddNeighbour(AddNeighbour(adj, idToIndex[link.from], idToIndex[link.to]), idToIndex[link.to], idToIndex[link.from])
      else adj
  }

  lemma {:induction false} NamedGraphIsAdjacency(nodes: seq<Node>, idToIndex: map<string, nat>, links: seq<NamedLink>)
    requires IsIdIndex(nodes, idToIndex)
    ensures IsNamedAdjacency(nodes, idToIndex, links, NamedGraph(nodes, idToIndex, links))
    decreases |links|
  {
    hide JoinedByName;
    if links == [] {
      NothingJoined(idToIndex);
    } else {
      var (front, link) := (links[..|links| - 1], links[|links| - 1]);
      assert links == front + [link];
      NamedGraphIsAdjacency(nodes, idToIndex, front);
      forall u: nat, v: nat { OneMoreLink(idToIndex, front, link, u, v); }
    }
  }

  method NamedAdjacency(nodes: seq<Node>, links: seq<NamedLink>, idToIndex: map<string, nat>) returns (adj: Graph)
    requires IsIdIndex(nodes, idToIndex)
    ensures adj == NamedGraph(nodes, idToIndex, links)
  {
    adj := seq(|nodes|, _ => []);
    var i := 0;
    while i < |links|
      invariant 0 <= i <= |links|
      invariant adj == NamedGraph(nodes, idToIndex, links[..i])
    {
      var link := links[i];
      assert links[..i + 1][..i] == links[..i];
      if link.from in idToIndex && link.to in idToIndex {
        var a, b := idToIndex[link.from], idToIndex[link.to];
        adj := AddNeighbour(adj, a, b);
        adj := AddNeighbour(adj, b, a);
      }
      i := i + 1;
    }
    assert links[..i] == links;
  }

  lemma NothingJoined(idToIndex: map<string, nat>)
    ensures forall u: nat, v: nat :: !JoinedByName(idToIndex, [], u, v)
  {
  }

  lemma NamedAdjacencyIsUndirected(nodes: seq<Node>, idToIndex: map<string, nat>, links: seq<NamedLink>, adj: Graph)
    requires IsNamedAdjacency(nodes, idToIndex, links, adj)
    ensures Valid(adj) && Symmetric(adj)
  {
  }

  /** The indices of the hosts. */
  ghost function HostIndices(nodes: seq<Node>): (hosts: set<nat>)
    ensures forall i :: i in hosts <==> 0 <= i < |nodes| && nodes[i].kind == Host
  {
    set i: nat | i < |nodes| && nodes[i].kind == Host
  }

  /** The entry for the directed link between node indices `u` and `v`. */
  ghost predicate IsCapacity(nodes: seq<Node>, adj: Graph, rates: LinkRates, delaySeconds: real, u: nat, v: nat, bytes: nat)
    requires u < |nodes| && v < |nodes|
  {
    exists m: nat :: LongestVia(adj, HostIndices(nodes), u, v, m)
      && bytes == BrowserQueueBytes(LinkRateForNodeKinds(rates, nodes[u].kind, nodes[v].kind), m, delaySeconds)
  }

  method LongestServed(nodes: seq<Node>, adj: Graph, rows: seq<seq<int>>, hostIndices: seq<nat>, src: nat, nxt: nat)
    returns (maxHops: nat)
    requires Valid(adj) && src < |adj| == |nodes| && nxt in adj[src]
    requires |rows| == |adj| && AreRows(adj, rows)
    requires forall i :: i in hostIndices <==> i in HostIndices(nodes)
    ensures LongestVia(adj, HostIndices(nodes), src, nxt, maxHops)
  {
    maxHops := 1;
    ghost var seen: set<nat> := {};
    var i := 0;
    while i < |hostIndices|
      invariant 0 <= i <= |hostIndices|
      invariant seen == set x | x in hostIndices[..i]
      invariant LongestVia(adj, seen, src, nxt, maxHops)
    {
      var dst := hostIndices[i];
      assert hostIndices[..i + 1] == hostIndices[..i] + [dst];
      assert dst in hostIndices;
      FirstHopTest(adj, src, nxt, dst);
      DistSelf(adj, dst);
      if dst != src {
        assert IsRow(adj, src, rows[src]) && IsRow(adj, nxt, rows[nxt]);
        var srcToDstHops := rows[src][dst];
        var nxtToDstHops := rows[nxt][dst];
        if !(srcToDstHops <= 0 || nxtToDstHops < 0) {
          if srcToDstHops == nxtToDstHops + 1 {
            maxHops := if srcToDstHops > maxHops then srcToDstHops else maxHops;
          }
        }
      }
      seen := seen + {dst};
      i := i + 1;
    }
    assert hostIndices[..i] == hostIndices;
    assert seen == HostIndices(nodes);
  }

  method AllDistancesByHead(adj: Graph) returns (rows: seq<seq<int>>)
    requires Valid(adj)
    ensures |rows| == |adj| && AreRows(adj, rows)
  {
    rows := [];
    var src := 0;
    while src < |adj|
      invariant 0 <= src <= |adj| && |rows| == src && AreRows(adj, rows)
    {
      var row := DistancesByHead(adj, src);
      rows := rows + [row];
      src := src + 1;
    }
  }

  method FindHosts(nodes: seq<Node>) returns (hostIndices: seq<nat>)
    ensures forall i :: i in hostIndices <==> i in HostIndices(nodes)
    ensures forall i, j :: 0 <= i < j < |hostIndices| ==> hostIndices[i] < hostIndices[j]
  {
    hostIndices := [];
    var idx := 0;
    while idx < |nodes|
      invariant 0 <= idx <= |nodes|
      invariant forall i :: i in hostIndices <==> 0 <= i < idx && nodes[i].kind == Host
      invariant forall i, j :: 0 <= i < j < |hostIndices| ==> hostIndices[i] < hostIndices[j]
      invariant forall i :: 0 <= i < |hostIndices| ==> hostIndices[i] < idx
    {
      if nodes[idx].kind == Host {
        hostIndices := hostIndices + [idx];
      }
      idx := idx + 1;
    }
  }

  /** The table the links fill in: an entry for both directions of every link whose ends have numbers,
      and every entry the capacity of some such direction of that name. */
  ghost predicate IsCapacityTable(nodes: seq<Node>, idToIndex: map<string, nat>, adj: Graph, numbers: seq<int>,
                                  rates: LinkRates, delaySeconds: real, links: seq<NamedLink>, table: map<string, nat>)
    requires |numbers| == |nodes|
  {
    && (forall u: nat, v: nat ::
          u < |nodes| && v < |nodes| && JoinedByName(idToIndex, links, u, v) && numbers[u] >= 0 && numbers[v] >= 0 ==>
          LinkName(numbers[u], numbers[v]) in table)
    && (forall key :: key in table ==>
          exists u: nat, v: nat :: u < |nodes| && v < |nodes| && JoinedByName(idToIndex, links, u, v)
            && numbers[u] >= 0 && numbers[v] >= 0 && key == LinkName(numbers[u], numbers[v])
            && IsCapacity(nodes, adj, rates, delaySeconds, u, v, table[key]))
  }

  /** The link writes an entry of this name. */
  ghost predicate Writes(idToIndex: map<string, nat>, numbers: seq<int>, link: NamedLink, key: string) {
    && link.from in idToIndex && link.to in idToIndex
    && idToIndex[link.from] < |numbers| && idToIndex[link.to] < |numbers|
    && numbers[idToIndex[link.from]] >= 0 && numbers[idToIndex[link.to]] >= 0
    && (key == LinkName(numbers[idToIndex[link.from]], numbers[idToIndex[link.to]])
        || key == LinkName(numbers[idToIndex[link.to]], numbers[idToIndex[link.from]]))
  }

  /** Link `i` is the last to write the entry, and `u -> v` is its direction of that name, the reverse one
      if both have it. */
  ghost predicate WrittenLast(idToIndex: map<string, nat>, numbers: seq<int>, links: seq<NamedLink>, key: string,
                              i: nat, u: nat, v: nat)
  {
    && i < |links| && Writes(idToIndex, numbers, links[i], key)
    && (forall j :: i < j < |links| ==> !Writes(idToIndex, numbers, links[j], key))
    && var (a, b) := (idToIndex[links[i].from], idToIndex[links[i].to]);
       if key == LinkName(numbers[b], numbers[a]) then u == b && v == a else u == a && v == b
  }

  /** Every entry is that of the last link that writes it. */
  ghost predicate LastWriteWins(nodes: seq<Node>, idToIndex: map<string, nat>, adj: Graph, numbers: seq<int>,
                                rates: LinkRates, delaySeconds: real, links: seq<NamedLink>, table: map<string, nat>)
  {
    forall key :: key in table ==>
      exists i: nat, u: nat, v: nat :: u < |nodes| && v < |nodes| && WrittenLast(idToIndex, numbers, links, key, i, u, v)
        && IsCapacity(nodes, adj, rates, delaySeconds, u, v, table[key])
  }

  lemma LaterLink(idToIndex: map<string, nat>, numbers: seq<int>, links: seq<NamedLink>, link: NamedLink, key: string,
                  i: nat, u: nat, v: nat)
    requires WrittenLast(idToIndex, numbers, links, key, i, u, v) && !Writes(idToIndex, numbers, link, key)
    ensures WrittenLast(idToIndex, numbers, links + [link], key, i, u, v)
  {
    hide Writes, LinkName;
  }

  lemma LastLink(idToIndex: map<string, nat>, numbers: seq<int>, links: seq<NamedLink>, link: NamedLink, key: string)
    requires Writes(idToIndex, numbers, link, key)
    ensures var (a, b) := (idToIndex[link.from], idToIndex[link.to]);
      if key == LinkName(numbers[b], numbers[a]) then WrittenLast(idToIndex, numbers, links + [link], key, |links|, b, a)
      else WrittenLast(idToIndex, numbers, links + [link], key, |links|, a, b)
  {
    hide LinkName;
    assert (links + [link])[|links|] == link;
  }

  /** The two entries of one more link replace those of the links before it. */
  lemma NewEntriesWin(nodes: seq<Node>, idToIndex: map<string, nat>, adj: Graph, numbers: seq<int>,
                      rates: LinkRates, delaySeconds: real, links: seq<NamedLink>, table: map<string, nat>,
                      link: NamedLink, there: nat, back: nat)
    requires |numbers| == |nodes| && IsIdIndex(nodes, idToIndex)
    requires LastWriteWins(nodes, idToIndex, adj, numbers, rates, delaySeconds, links, table)
    requires link.from in idToIndex && link.to in idToIndex
    requires numbers[idToIndex[link.from]] >= 0 && numbers[idToIndex[link.to]] >= 0
    requires IsCapacity(nodes, adj, rates, delaySeconds, idToIndex[link.from], idToIndex[link.to], there)
    requires IsCapacity(nodes, adj, rates, delaySeconds, idToIndex[link.to], idToIndex[link.from], back)
    ensures LastWriteWins(nodes, idToIndex, adj, numbers, rates, delaySeconds, links + [link],
              table[LinkName(numbers[idToIndex[link.from]], numbers[idToIndex[link.to]]) := there]
                   [LinkName(numbers[idToIndex[link.to]], numbers[idToIndex[link.from]]) := back])
  {
    hide IsCapacity, LinkName, WrittenLast;
    var (a, b) := (idToIndex[link.from], idToIndex[link.to]);
    var (forth, reverse) := (LinkName(numbers[a], numbers[b]), LinkName(numbers[b], numbers[a]));
    var after := table[forth := there][reverse := back];
    forall key | key in after
      ensures exists i: nat, u: nat, v: nat :: u < |nodes| && v < |nodes|
                && WrittenLast(idToIndex, numbers, links + [link], key, i, u, v)
                && IsCapacity(nodes, adj, rates, delaySeconds, u, v, after[key])
    {
      if Writes(idToIndex, numbers, link, key) {
        LastLink(idToIndex, numbers, links, link, key);
      } else {
        assert key in table && after[key] == table[key];
        var i: nat, u: nat, v: nat :| u < |nodes| && v < |nodes| && WrittenLast(idToIndex, numbers, links, key, i, u, v)
          && IsCapacity(nodes, adj, rates, delaySeconds, u, v, table[key]);
        LaterLink(idToIndex, numbers, links, link, key, i, u, v);
      }
    }
  }

  /** A link that writes nothing changes nothing. */
  lemma OldEntriesStay(nodes: seq<Node>, idToIndex: map<string, nat>, adj: Graph, numbers: seq<int>,
                       rates: LinkRates, delaySeconds: real, links: seq<NamedLink>, table: map<string, nat>, link: NamedLink)
    requires LastWriteWins(nodes, idToIndex, adj, numbers, rates, delaySeconds, links, table)
    requires forall key :: !Writes(idToIndex, numbers, link, key)
    ensures LastWriteWins(nodes, idToIndex, adj, numbers, rates, delaySeconds, links + [link], table)
  {
    hide IsCapacity, Writes, WrittenLast;
    forall key | key in table
      ensures exists i: nat, u: nat, v: nat :: u < |nodes| && v < |nodes|
                && WrittenLast(idToIndex, numbers, links + [link], key, i, u, v)
                && IsCapacity(nodes, adj, rates, delaySeconds, u, v, table[key])
    {
      var i: nat, u: nat, v: nat :| u < |nodes| && v < |nodes| && WrittenLast(idToIndex, numbers, links, key, i, u, v)
        && IsCapacity(nodes, adj, rates, delaySeconds, u, v, table[key]);
      LaterLink(idToIndex, numbers, links, link, key, i, u, v);
    }
  }

  /** Writing the two entries of one more link. */
  lemma TwoMoreEntries(nodes: seq<Node>, idToIndex: map<string, nat>, adj: Graph, numbers: seq<int>,
                       rates: LinkRates, delaySeconds: real, links: seq<NamedLink>, table: map<string, nat>,
                       link: NamedLink, there: nat, back: nat)
    requires |numbers| == |nodes| && IsIdIndex(nodes, idToIndex)
    requires IsCapacityTable(nodes, idToIndex, adj, numbers, rates, delaySeconds, links, table)
    requires link.from in idToIndex && link.to in idToIndex
    requires numbers[idToIndex[link.from]] >= 0 && numbers[idToIndex[link.to]] >= 0
    requires IsCapacity(nodes, adj, rates, delaySeconds, idToIndex[link.from], idToIndex[link.to], there)
    requires IsCapacity(nodes, adj, rates, delaySeconds, idToIndex[link.to], idToIndex[link.from], back)
    ensures IsCapacityTable(nodes, idToIndex, adj, numbers, rates, delaySeconds, links + [link],
              table[LinkName(numbers[idToIndex[link.from]], numbers[idToIndex[link.to]]) := there]
                   [LinkName(numbers[idToIndex[link.to]], numbers[idToIndex[link.from]]) := back])
  {
    hide IsCapacity, LinkName, JoinedByName;
    var a, b := idToIndex[link.from], idToIndex[link.to];
    var forth := LinkName(numbers[a], numbers[b]);
    var reverse := LinkName(numbers[b], numbers[a]);
    var after := table[forth := there][reverse := back];
    forall u: nat, v: nat { OneMoreLink(idToIndex, links, link, u, v); }
    forall key | key in after
      ensures exists u: nat, v: nat :: u < |nodes| && v < |nodes| && JoinedByName(idToIndex, links + [link], u, v)
                && numbers[u] >= 0 && numbers[v] >= 0 && key == LinkName(numbers[u], numbers[v])
                && IsCapacity(nodes, adj, rates, delaySeconds, u, v, after[key])
    {
      if key == reverse {
        assert JoinedByName(idToIndex, links + [link], b, a);
      } else if key == forth {
        assert JoinedByName(idToIndex, links + [link], a, b);
      } else {
        var u: nat, v: nat :| u < |nodes| && v < |nodes| && JoinedByName(idToIndex, links, u, v)
          && numbers[u] >= 0 && numbers[v] >= 0 && key == LinkName(numbers[u], numbers[v])
          && IsCapacity(nodes, adj, rates, delaySeconds, u, v, table[key]);
      }
    }
  }

  lemma UnnumberedLink(nodes: seq<Node>, idToIndex: map<string, nat>, adj: Graph, numbers: seq<int>,
                       rates: LinkRates, delaySeconds: real, links: seq<NamedLink>, table: map<string, nat>, link: NamedLink)
    requires |numbers| == |nodes| && IsIdIndex(nodes, idToIndex)
    requires IsCapacityTable(nodes, idToIndex, adj, numbers, rates, delaySeconds, links, table)
    requires link.from !in idToIndex || link.to !in idToIndex
          || numbers[idToIndex[link.from]] < 0 || numbers[idToIndex[link.to]] < 0
    ensures IsCapacityTable(nodes, idToIndex, adj, numbers, rates, delaySeconds, links + [link], table)
  {
    hide IsCapacity, LinkName, JoinedByName;
    forall u: nat, v: nat { OneMoreLink(idToIndex, links, link, u, v); }
  }

  /** The browser's capacity table, for any nodes, links and id resolution. */
  method ComputeQueueCapacityBytesByDirectedLink(nodes: seq<Node>, links: seq<NamedLink>, rates: LinkRates,
                                                 delaySeconds: real, resolve: string -> int)
    returns (capacities: map<string, nat>)
    ensures IsCapacityTable(nodes, IndexOf(nodes), NamedGraph(nodes, IndexOf(nodes), links), Numbers(nodes, resolve),
                            rates, delaySeconds, links, capacities)
    ensures LastWriteWins(nodes, IndexOf(nodes), NamedGraph(nodes, IndexOf(nodes), links), Numbers(nodes, resolve),
                          rates, delaySeconds, links, capacities)
  {
    hide JoinedByName, IsCapacity, LongestVia, BrowserQueueBytes, IndexOf, NamedGraph, IsCapacityTable, LastWriteWins;
    capacities := map[];
    var idToIndex := IndexIds(nodes);
    var adj := NamedAdjacency(nodes, links, idToIndex);
    if |nodes| == 0 {
      NoEntries(nodes, idToIndex, adj, Numbers(nodes, resolve), rates, delaySeconds, links);
      return;
    }
    NamedGraphIsAdjacency(nodes, idToIndex, links);
    NamedAdjacencyIsUndirected(nodes, idToIndex, links, adj);
    var rows := AllDistancesByHead(adj);
    var hostIndices := FindHosts(nodes);
    var numericIds := Numbers(nodes, resolve);
    NoLinks(nodes, idToIndex, adj, numericIds, rates, delaySeconds);
    var i := 0;
    while i < |links|
      invariant 0 <= i <= |links|
      invariant IsCapacityTable(nodes, idToIndex, adj, numericIds, rates, delaySeconds, links[..i], capacities)
      invariant LastWriteWins(nodes, idToIndex, adj, numericIds, rates, delaySeconds, links[..i], capacities)
    {
      var link := links[i];
      assert links[..i + 1] == links[..i] + [link];
      if link.from in idToIndex && link.to in idToIndex
        && numericIds[idToIndex[link.from]] >= 0 && numericIds[idToIndex[link.to]] >= 0
      {
        var a, b := idToIndex[link.from], idToIndex[link.to];
        assert JoinedByName(idToIndex, links, a, b) && JoinedByName(idToIndex, links, b, a) by {
          assert LinkFrom(idToIndex, links, a, b);
          LinksJoin(idToIndex, links, a, b);
        }
        var forth := LongestServed(nodes, adj, rows, hostIndices, a, b);
        var back := LongestServed(nodes, adj, rows, hostIndices, b, a);
        var forthBytes := BrowserQueueBytes(LinkRateForNodeKinds(rates, nodes[a].kind, nodes[b].kind), forth, delaySeconds);
        var backBytes := BrowserQueueBytes(LinkRateForNodeKinds(rates, nodes[b].kind, nodes[a].kind), back, delaySeconds);
        CapacityOf(nodes, adj, rates, delaySeconds, a, b, forth);
        CapacityOf(nodes, adj, rates, delaySeconds, b, a, back);
        TwoMoreEntries(nodes, idToIndex, adj, numericIds, rates, delaySeconds, links[..i], capacities, link, forthBytes, backBytes);
        NewEntriesWin(nodes, idToIndex, adj, numericIds, rates, delaySeconds, links[..i], capacities, link, forthBytes, backBytes);
        capacities := capacities[LinkName(numericIds[a], numericIds[b]) := forthBytes];
        capacities := capacities[LinkName(numericIds[b], numericIds[a]) := backBytes];
      } else {
        UnnumberedLink(nodes, idToIndex, adj, numericIds, rates, delaySeconds, links[..i], capacities, link);
        OldEntriesStay(nodes, idToIndex, adj, numericIds, rates, delaySeconds, links[..i], capacities, link);
      }
      i := i + 1;
    }
    assert links[..i] == links;
  }

  function Numbers(nodes: seq<Node>, resolve: string -> int): (numbers: seq<int>)
    ensures |numbers| == |nodes|
  {
    seq(|nodes|, i requires 0 <= i < |nodes| => resolve(nodes[i].id))
  }

  lemma LinksJoin(idToIndex: map<string, nat>, links: seq<NamedLink>, a: nat, b: nat)
    requires LinkFrom(idToIndex, links, a, b)
    ensures JoinedByName(idToIndex, links, a, b) && JoinedByName(idToIndex, links, b, a)
  {
  }

  lemma CapacityOf(nodes: seq<Node>, adj: Graph, rates: LinkRates, delaySeconds: real, u: nat, v: nat, m: nat)
    requires u < |nodes| && v < |nodes| && LongestVia(adj, HostIndices(nodes), u, v, m)
    ensures IsCapacity(nodes, adj, rates, delaySeconds, u, v,
              BrowserQueueBytes(LinkRateForNodeKinds(rates, nodes[u].kind, nodes[v].kind), m, delaySeconds))
  {
  }

  lemma NoEntries(nodes: seq<Node>, idToIndex: map<string, nat>, adj: Graph, numbers: seq<int>,
                  rates: LinkRates, delaySeconds: real, links: seq<NamedLink>)
    requires |nodes| == 0 == |numbers|
    ensures IsCapacityTable(nodes, idToIndex, adj, numbers, rates, delaySeconds, links, map[])
    ensures LastWriteWins(nodes, idToIndex, adj, numbers, rates, delaySeconds, links, map[])
  {
  }

  lemma NoLinks(nodes: seq<Node>, idToIndex: map<string, nat>, adj: Graph, numbers: seq<int>,
                rates: LinkRates, delaySeconds: real)
    requires |nodes| == |numbers|
    ensures IsCapacityTable(nodes, idToIndex, adj, numbers, rates, delaySeconds, [], map[])
    ensures LastWriteWins(nodes, idToIndex, adj, numbers, rates, delaySeconds, [], map[])
  {
    hide JoinedByName;
    NothingJoined(idToIndex);
  }
}
