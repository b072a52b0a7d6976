/**
  The fat tree the browser builds for itself (frontend/lib/topology.ts): string ids, its own node order
  and its own link order. Whenever the browser's topology describes the simulator's network, the two
  programs' tables have the same entries; for the fat tree it always does.
*/
module FrontendTopology {
  import opened Lists
  import opened Arith
  import opened Graphs
  import opened Bfs
  import opened HopTable
  import opened Text
  import opened DcnTopo
  import opened FrontendIds
  import opened Capacity
  import FatTree

  /** Coordinates, labels and colours of the nodes are left out. */
  datatype Built = Built(nodes: seq<Node>, links: seq<NamedLink>, error: bool)

  // ---------- the fat tree ----------

  ghost predicate AreNodesAt(half: Half, nodes: seq<Node>, places: seq<Place>) {
    |nodes| == |places| && forall i :: 0 <= i < |nodes| ==> nodes[i] == Node(Name(half, places[i]), KindAt(places[i]))
  }

  ghost predicate AreLinksAt(half: Half, links: seq<NamedLink>, ends: seq<(Place, Place)>) {
    |links| == |ends| && forall i :: 0 <= i < |links| ==> links[i] == NamedLink(Name(half, ends[i].0), Name(half, ends[i].1))
  }

  /** What the pods before `p` and, in pod `p`, the aggregation switches before `a`, the ToRs before `e`
      and the hosts before `h` of the ToR before `e` have contributed. */
  predicate Placed(half: Half, p: nat, a: nat, e: nat, h: nat, c: Place) {
    && InTree(half, c)
    && match c
       case CoreAt(_, _) => true
       case AggAt(q, b) => q < p || (q == p && b < a)
       case TorAt(q, f) => q < p || (q == p && f < e)
       case HostAt(q, f, x) => q < p || (q == p && (f + 1 < e || (f + 1 == e && x < h)))
  }

  /** The nodes and links drawn so far, and the positions they stand for. */
  ghost predicate Drawn(half: Half, nodes: seq<Node>, links: seq<NamedLink>, places: seq<Place>, ends: seq<(Place, Place)>,
                        p: nat, a: nat, e: nat, h: nat)
  {
    && AreNodesAt(half, nodes, places) && NoRepeats(places) && AreLinksAt(half, links, ends) && NoRepeats(ends)
    && (forall c :: c in places <==> Placed(half, p, a, e, h, c))
    && (forall c, d :: (c, d) in ends <==> InTree(half, d) && Uplink(c, d) && Placed(half, p, a, e, h, c))
  }

  /** The nodes stand for `places`, every place of the tree once, and the links for `ends`, every uplink once. */
  ghost predicate Depicts(half: Half, nodes: seq<Node>, links: seq<NamedLink>, places: seq<Place>, ends: seq<(Place, Place)>) {
    && AreNodesAt(half, nodes, places) && NoRepeats(places) && (forall c :: c in places <==> InTree(half, c))
    && AreLinksAt(half, links, ends) && NoRepeats(ends)
    && (forall c, d :: (c, d) in ends <==> InTree(half, c) && InTree(half, d) && Uplink(c, d))
  }

  /** The nodes and links are those of the fat tree of degree `2 * half`, in some order. */
  ghost predicate IsFatDrawing(half: Half, nodes: seq<Node>, links: seq<NamedLink>) {
    exists places: seq<Place>, ends: seq<(Place, Place)> :: Depicts(half, nodes, links, places, ends)
  }

  method BuildFatTree(k: int) returns (r: Built)
    ensures r.error <==> k < 2 || k % 2 != 0
    ensures r.error ==> r.nodes == [] && r.links == []
    ensures !r.error ==> IsFatDrawing(k / 2, r.nodes, r.links)
  {
    if k < 2 || k % 2 != 0 {
      return Built([], [], true);
    }
    var half: Half := k / 2;
    var nodes, links := [], [];
    ghost var places: seq<Place>, ends: seq<(Place, Place)>;
    nodes, places := DrawCores(half);
    ends := [];
    var p := 0;
    while p < k
      invariant 0 <= p <= k
      invariant Drawn(half, nodes, links, places, ends, p, 0, 0, 0)
    {
      nodes, links, places, ends := DrawAggs(half, p, nodes, links, places, ends);
      nodes, links, places, ends := DrawTors(half, p, nodes, links, places, ends);
      p := p + 1;
    }
    assert Depicts(half, nodes, links, places, ends);
    r := Built(nodes, links, false);
  }

  /** The one core drawn at step `i`. */
  lemma CoreNumber(half: Half, i: nat) returns (c: Place)
    requires i < half * half
    ensures c == CoreAt(i / half, i % half) && InTree(half, c)
    ensures forall d: Place :: InTree(half, d) && d.CoreAt? ==> (d.group * half + d.idx == i <==> d == c)
  {
    Unmix(i, half, half);
    c := CoreAt(i / half, i % half);
    forall d: Place | InTree(half, d) && d.CoreAt? && d.group * half + d.idx == i
      ensures d == c
    {
      DivMix(d.group, d.idx, half);
    }
  }

  method DrawCores(half: Half) returns (nodes: seq<Node>, ghost places: seq<Place>)
    ensures Drawn(half, nodes, [], places, [], 0, 0, 0, 0)
  {
    hide Name;
    nodes, places := [], [];
    var i := 0;
    MulMono(0, half, half);
    while i < half * half
      invariant 0 <= i <= half * half
      invariant AreNodesAt(half, nodes, places) && NoRepeats(places)
      invariant forall c :: c in places <==> InTree(half, c) && c.CoreAt? && c.group * half + c.idx < i
    {
      ghost var c := CoreNumber(half, i);
      CoreNamed(half, i);
      nodes, places := nodes + [Node("core" + "-" + Decimal(i), Core)], places + [c];
      i := i + 1;
    }
    forall c: Place | InTree(half, c) && c.CoreAt?
      ensures c.group * half + c.idx < half * half
    {
      MixBound(c.group, c.idx, half, half);
    }
  }

  method DrawAggs(half: Half, p: nat, nodes0: seq<Node>, links0: seq<NamedLink>,
                  ghost places0: seq<Place>, ghost ends0: seq<(Place, Place)>)
    returns (nodes: seq<Node>, links: seq<NamedLink>, ghost places: seq<Place>, ghost ends: seq<(Place, Place)>)
    requires p < 2 * half && Drawn(half, nodes0, links0, places0, ends0, p, 0, 0, 0)
    ensures Drawn(half, nodes, links, places, ends, p, half, 0, half)
  {
    hide Name;
    nodes, links, places, ends := nodes0, links0, places0, ends0;
    var a := 0;
    while a < half
      invariant 0 <= a <= half
      invariant Drawn(half, nodes, links, places, ends, p, a, 0, 0)
    {
      ghost var agg := AggAt(p, a);
      assert agg !in places;
      NamesOf(half, p, a, 0);
      nodes, places := nodes + [Node(PodName(p, "agg", a), Agg)], places + [agg];
      ghost var before := ends;
      var c := 0;
      while c < half
        invariant 0 <= c <= half
        invariant AreLinksAt(half, links, ends) && NoRepeats(ends)
        invariant forall x, y :: (x, y) in ends <==> (x, y) in before || (x == agg && y.CoreAt? && y.group == a && y.idx < c)
      {
        NamesOf(half, a, c, 0);
        links := links + [NamedLink(PodName(p, "agg", a), "core" + "-" + Decimal(a * half + c))];
        ends := ends + [(agg, CoreAt(a, c))];
        c := c + 1;
      }
      a := a + 1;
    }
  }

  method DrawTors(half: Half, p: nat, nodes0: seq<Node>, links0: seq<NamedLink>,
                  ghost places0: seq<Place>, ghost ends0: seq<(Place, Place)>)
    returns (nodes: seq<Node>, links: seq<NamedLink>, ghost places: seq<Place>, ghost ends: seq<(Place, Place)>)
    requires p < 2 * half && Drawn(half, nodes0, links0, places0, ends0, p, half, 0, half)
    ensures Drawn(half, nodes, links, places, ends, p + 1, 0, 0, 0)
  {
    hide Name;
    nodes, links, places, ends := nodes0, links0, places0, ends0;
    var e := 0;
    while e < half
      invariant 0 <= e <= half
      invariant Drawn(half, nodes, links, places, ends, p, half, e, half)
    {
      ghost var tor := TorAt(p, e);
      assert tor !in places;
      NamesOf(half, p, e, 0);
      nodes, places := nodes + [Node(PodName(p, "tor", e), Tor)], places + [tor];
      ghost var before := ends;
      var a := 0;
      while a < half
        invariant 0 <= a <= half
        invariant AreLinksAt(half, links, ends) && NoRepeats(ends)
        invariant forall x, y :: (x, y) in ends <==> (x, y) in before || (x == tor && y.AggAt? && y.pod == p && y.idx < a)
      {
        NamesOf(half, p, a, 0);
        links := links + [NamedLink(PodName(p, "tor", e), PodName(p, "agg", a))];
        ends := ends + [(tor, AggAt(p, a))];
        a := a + 1;
      }
      nodes, links, places, ends := DrawHosts(half, p, e, nodes, links, places, ends);
      e := e + 1;
    }
  }

  method DrawHosts(half: Half, p: nat, e: nat, nodes0: seq<Node>, links0: seq<NamedLink>,
                   ghost places0: seq<Place>, ghost ends0: seq<(Place, Place)>)
    returns (nodes: seq<Node>, links: seq<NamedLink>, ghost places: seq<Place>, ghost ends: seq<(Place, Place)>)
    requires p < 2 * half && e < half && Drawn(half, nodes0, links0, places0, ends0, p, half, e + 1, 0)
    ensures Drawn(half, nodes, links, places, ends, p, half, e + 1, half)
  {
    hide Name, Placed, AreNodesAt, AreLinksAt, NoRepeats;
    nodes, links, places, ends := nodes0, links0, places0, ends0;
    var h := 0;
    while h < half
      invariant 0 <= h <= half
      invariant Drawn(half, nodes, links, places, ends, p, half, e + 1, h)
    {
      OneMoreHost(half, p, e, h, nodes, links, places, ends);
      nodes, places := nodes + [Node(HostName(p, e, h), Host)], places + [HostAt(p, e, h)];
      links := links + [NamedLink(HostName(p, e, h), PodName(p, "tor", e))];
      ends := ends + [(HostAt(p, e, h), TorAt(p, e))];
      h := h + 1;
    }
  }

  lemma OneMoreHost(half: Half, p: nat, e: nat, h: nat, nodes: seq<Node>, links: seq<NamedLink>,
                    places: seq<Place>, ends: seq<(Place, Place)>)
    requires p < 2 * half && e < half && h < half && Drawn(half, nodes, links, places, ends, p, half, e + 1, h)
    ensures Drawn(half, nodes + [Node(HostName(p, e, h), Host)], links + [NamedLink(HostName(p, e, h), PodName(p, "tor", e))],
                  places + [HostAt(p, e, h)], ends + [(HostAt(p, e, h), TorAt(p, e))], p, half, e + 1, h + 1)
  {
  }

  lemma NamesOf(half: Half, p: nat, i: nat, h: nat)
    ensures Name(half, AggAt(p, i)) == PodName(p, "agg", i) && Name(half, TorAt(p, i)) == PodName(p, "tor", i)
    ensures Name(half, HostAt(p, i, h)) == HostName(p, i, h)
    ensures Name(half, CoreAt(p, i)) == "core" + "-" + Decimal(p * half + i)
  {
  }

  lemma CoreNamed(half: Half, i: nat)
    ensures Name(half, CoreAt(i / half, i % half)) == "core" + "-" + Decimal(i)
  {
    Recompose(i, half);
  }

  // ---------- one network, two descriptions ----------

  /** The browser's node `i` is the simulator's node `numbers[i]`, with the same kind and the same neighbours. */
  ghost predicate SameNetwork(t: DcnTopo, g: Graph, nodes: seq<Node>, links: seq<NamedLink>, idToIndex: map<string, nat>,
                              numbers: seq<nat>)
  {
    && Valid(g) && |g| == t.total == |nodes| == |numbers| && t.numHosts <= t.total
    && (forall i :: 0 <= i < |nodes| ==> numbers[i] < t.total && nodes[i].kind == t.KindOf(numbers[i]))
    && (forall x :: 0 <= x < t.total ==> x in numbers)
    && NoRepeats(numbers)
    && (forall u: nat, v: nat :: u < |nodes| && v < |nodes| ==>
          (JoinedByName(idToIndex, links, u, v) <==> numbers[v] in g[numbers[u]]))
    && (forall x: nat, y: nat :: x < t.total && y in g[x] ==> AdjacentKinds(t.KindOf(x), t.KindOf(y)))
  }

  lemma SameNetworkRelabels(t: DcnTopo, g: Graph, nodes: seq<Node>, links: seq<NamedLink>, idToIndex: map<string, nat>,
                            numbers: seq<nat>, adj: Graph)
    requires SameNetwork(t, g, nodes, links, idToIndex, numbers) && IsNamedAdjacency(nodes, idToIndex, links, adj)
    ensures Valid(adj) && Relabels(adj, g, numbers)
  {
  }

  lemma SameHosts(t: DcnTopo, g: Graph, nodes: seq<Node>, links: seq<NamedLink>, idToIndex: map<string, nat>, numbers: seq<nat>)
    requires SameNetwork(t, g, nodes, links, idToIndex, numbers)
    ensures forall w :: w in HostIndices(nodes) ==> w < |nodes| && numbers[w] in HostSet(t.numHosts)
    ensures forall x :: x in HostSet(t.numHosts) ==> exists w :: w in HostIndices(nodes) && numbers[w] == x
  {
    hide JoinedByName;
    forall x | x in HostSet(t.numHosts)
      ensures exists w :: w in HostIndices(nodes) && numbers[w] == x
    {
      assert x in numbers;
      var w :| 0 <= w < |numbers| && numbers[w] == x;
      assert w in HostIndices(nodes);
    }
  }

  /** A list without repeats of exactly the numbers below `n` has length `n`. */
  lemma {:induction false} AllNumbersOnce(s: seq<nat>, n: nat)
    requires NoRepeats(s)
    requires forall i :: 0 <= i < |s| ==> s[i] < n
    requires forall x :: 0 <= x < n ==> x in s
    ensures |s| == n
    decreases n
  {
    if n > 0 {
      assert n - 1 in s;
      var i :| 0 <= i < |s| && s[i] == n - 1;
      var rest := s[..i] + s[i + 1..];
      assert NoRepeats(rest);
      forall x | 0 <= x < n - 1
        ensures x in rest
      {
        assert x in s;
        var j :| 0 <= j < |s| && s[j] == x;
        assert rest[if j < i then j else j - 1] == x;
      }
      AllNumbersOnce(rest, n - 1);
    }
  }

  /** What the simulator configures for the directed link `x -> y`. */
  function SimulatorBytes(t: DcnTopo, rates: LinkRates, delaySeconds: real, hops: map<nat, nat>, x: nat, y: nat): nat
    requires MakeDirectedLinkKey(x, y) in hops
  {
    ComputeQueueBytes(RateForLink(t, Link(x, y), rates), hops[MakeDirectedLinkKey(x, y)], delaySeconds)
  }

  /** What the browser displays for it, from the simulator's hop count. */
  function BrowserBytes(t: DcnTopo, rates: LinkRates, delaySeconds: real, hops: map<nat, nat>, x: nat, y: nat): nat
    requires MakeDirectedLinkKey(x, y) in hops
  {
    BrowserQueueBytes(RateForLink(t, Link(x, y), rates), hops[MakeDirectedLinkKey(x, y)], delaySeconds)
  }

  /** The browser's table has exactly the simulator's directed links, and under each the bytes that the
      simulator's hop count gives. */
  ghost predicate SameTables(t: DcnTopo, g: Graph, rates: LinkRates, delaySeconds: real, hops: map<nat, nat>,
                             capacities: map<string, nat>)
  {
    && (forall x: nat, y: nat :: x < |g| && y in g[x] ==>
          && MakeDirectedLinkKey(x, y) in hops && LinkName(x, y) in capacities
          && capacities[LinkName(x, y)] == BrowserBytes(t, rates, delaySeconds, hops, x, y))
    && (forall key :: key in capacities ==> exists x: nat, y: nat :: x < |g| && y in g[x] && key == LinkName(x, y))
  }

  lemma EntryAgrees(t: DcnTopo, g: Graph, nodes: seq<Node>, links: seq<NamedLink>, idToIndex: map<string, nat>,
                    numbers: seq<nat>, adj: Graph, rates: LinkRates, delaySeconds: real, hops: map<nat, nat>,
                    u: nat, v: nat, bytes: nat)
    requires SameNetwork(t, g, nodes, links, idToIndex, numbers) && IsNamedAdjacency(nodes, idToIndex, links, adj)
    requires IsHopTable(g, HostSet(t.numHosts), hops)
    requires u < |nodes| && v < |nodes| && numbers[v] in g[numbers[u]]
    requires IsCapacity(nodes, adj, rates, delaySeconds, u, v, bytes)
    ensures MakeDirectedLinkKey(numbers[u], numbers[v]) in hops
    ensures bytes == BrowserBytes(t, rates, delaySeconds, hops, numbers[u], numbers[v])
  {
    hide JoinedByName, LongestVia, BrowserQueueBytes, DcnTopo.KindOf, Relabels;
    var (x, y) := (numbers[u], numbers[v]);
    var m: nat :| LongestVia(adj, HostIndices(nodes), u, v, m)
      && bytes == BrowserQueueBytes(LinkRateForNodeKinds(rates, nodes[u].kind, nodes[v].kind), m, delaySeconds);
    SameNetworkRelabels(t, g, nodes, links, idToIndex, numbers, adj);
    SameHosts(t, g, nodes, links, idToIndex, numbers);
    RelabelLongestVia(adj, g, numbers, HostIndices(nodes), HostSet(t.numHosts), u, v, m);
    LongestViaUnique(g, HostSet(t.numHosts), x, y, m, hops[MakeDirectedLinkKey(x, y)]);
    assert AdjacentKinds(t.KindOf(x), t.KindOf(y));
  }

  /** Every entry of the browser's table is that of the simulator's link of the same name. */
  lemma EntryOfKey(t: DcnTopo, g: Graph, nodes: seq<Node>, links: seq<NamedLink>, idToIndex: map<string, nat>,
                   numbers: seq<nat>, adj: Graph, rates: LinkRates, delaySeconds: real, hops: map<nat, nat>,
                   capacities: map<string, nat>, key: string)
    returns (x: nat, y: nat)
    requires SameNetwork(t, g, nodes, links, idToIndex, numbers) && IsNamedAdjacency(nodes, idToIndex, links, adj)
    requires IsHopTable(g, HostSet(t.numHosts), hops)
    requires IsCapacityTable(nodes, idToIndex, adj, numbers, rates, delaySeconds, links, capacities)
    requires key in capacities
    ensures x < |g| && y in g[x] && key == LinkName(x, y) && MakeDirectedLinkKey(x, y) in hops
    ensures capacities[key] == BrowserBytes(t, rates, delaySeconds, hops, x, y)
  {
    hide JoinedByName, LongestVia, IsCapacity, LinkName, BrowserBytes, DcnTopo.KindOf, IsNamedAdjacency, IsHopTable;
    var a: nat, b: nat :| a < |nodes| && b < |nodes| && JoinedByName(idToIndex, links, a, b)
      && numbers[a] >= 0 && numbers[b] >= 0 && key == LinkName(numbers[a], numbers[b])
      && IsCapacity(nodes, adj, rates, delaySeconds, a, b, capacities[key]);
    x, y := numbers[a], numbers[b];
    EntryAgrees(t, g, nodes, links, idToIndex, numbers, adj, rates, delaySeconds, hops, a, b, capacities[key]);
  }

  /** Every link of the simulator has an entry in the browser's table. */
  lemma KeyOfLink(t: DcnTopo, g: Graph, nodes: seq<Node>, links: seq<NamedLink>, idToIndex: map<string, nat>,
                  numbers: seq<nat>, adj: Graph, rates: LinkRates, delaySeconds: real, capacities: map<string, nat>,
                  x: nat, y: nat)
    requires SameNetwork(t, g, nodes, links, idToIndex, numbers)
    requires IsCapacityTable(nodes, idToIndex, adj, numbers, rates, delaySeconds, links, capacities)
    requires x < |g| && y in g[x]
    ensures LinkName(x, y) in capacities
  {
    hide JoinedByName, IsCapacity, LinkName, DcnTopo.KindOf, AdjacentKinds;
    assert x in numbers && y in numbers;
    var u :| 0 <= u < |numbers| && numbers[u] == x;
    var v :| 0 <= v < |numbers| && numbers[v] == y;
    assert JoinedByName(idToIndex, links, u, v);
  }

  /** Two descriptions of one network give the same directed links, hop counts and bytes. */
  lemma TablesAgree(t: DcnTopo, g: Graph, nodes: seq<Node>, links: seq<NamedLink>, idToIndex: map<string, nat>,
                    numbers: seq<nat>, adj: Graph, rates: LinkRates, delaySeconds: real, hops: map<nat, nat>,
                    capacities: map<string, nat>)
    requires SameNetwork(t, g, nodes, links, idToIndex, numbers) && IsNamedAdjacency(nodes, idToIndex, links, adj)
    requires IsHopTable(g, HostSet(t.numHosts), hops)
    requires IsCapacityTable(nodes, idToIndex, adj, numbers, rates, delaySeconds, links, capacities)
    ensures SameTables(t, g, rates, delaySeconds, hops, capacities)
  {
    hide SameNetwork, IsCapacityTable, LinkName, BrowserBytes, IsNamedAdjacency, IsHopTable;
    forall x: nat, y: nat | x < |g| && y in g[x]
      ensures MakeDirectedLinkKey(x, y) in hops && LinkName(x, y) in capacities
      ensures capacities[LinkName(x, y)] == BrowserBytes(t, rates, delaySeconds, hops, x, y)
    {
      KeyOfLink(t, g, nodes, links, idToIndex, numbers, adj, rates, delaySeconds, capacities, x, y);
      var a, b := EntryOfKey(t, g, nodes, links, idToIndex, numbers, adj, rates, delaySeconds, hops, capacities, LinkName(x, y));
      LinkNameInjective(a, b, x, y);
    }
    forall key | key in capacities
      ensures exists x: nat, y: nat :: x < |g| && y in g[x] && key == LinkName(x, y)
    {
      var a, b := EntryOfKey(t, g, nodes, links, idToIndex, numbers, adj, rates, delaySeconds, hops, capacities, key);
    }
  }

  /** With equal tables, a link shows the capacity the simulator configured exactly when its round trip is
      below 2^32 bytes. */
  lemma BytesAgree(t: DcnTopo, g: Graph, rates: LinkRates, delaySeconds: real, hops: map<nat, nat>,
                   capacities: map<string, nat>, x: nat, y: nat)
    requires SameTables(t, g, rates, delaySeconds, hops, capacities) && x < |g| && y in g[x]
    ensures SimulatorBytes(t, rates, delaySeconds, hops, x, y) == capacities[LinkName(x, y)]
       <==> RoundTripBytes(RateForLink(t, Link(x, y), rates), hops[MakeDirectedLinkKey(x, y)], delaySeconds) < 4294967296.0
  {
    hide LinkName, ComputeQueueBytes, BrowserQueueBytes, RateForLink, RoundTripBytes;
    assert capacities[LinkName(x, y)] == BrowserBytes(t, rates, delaySeconds, hops, x, y);
    CapacitiesAgree(RateForLink(t, Link(x, y), rates), hops[MakeDirectedLinkKey(x, y)], delaySeconds);
  }

  // ---------- the fat tree is one network ----------

  lemma NamesInjective(t: DcnTopo, half: Half, c: Place, d: Place)
    requires IsFatTree(t, half) && InTree(half, c) && InTree(half, d) && Name(half, c) == Name(half, d)
    ensures c == d
  {
    hide *;
    NameToId(t, half, c);
    NameToId(t, half, d);
    IdThenPlace(t, half, c);
    IdThenPlace(t, half, d);
  }

  lemma NamedUplinks(t: DcnTopo, half: Half, nodes: seq<Node>, places: seq<Place>, links: seq<NamedLink>,
                     ends: seq<(Place, Place)>, idToIndex: map<string, nat>, u: nat, v: nat)
    requires IsFatTree(t, half) && u < |nodes| && v < |nodes|
    requires Depicts(half, nodes, links, places, ends) && IsIdIndex(nodes, idToIndex)
    ensures LinkFrom(idToIndex, links, u, v) <==> Uplink(places[u], places[v])
  {
    hide IsFatTree, InTree, Uplink, Name;
    forall i | 0 <= i < |nodes|
      ensures InTree(half, places[i])
    {
      assert places[i] in places;
    }
    forall c | InTree(half, c)
      ensures Name(half, c) in idToIndex && places[idToIndex[Name(half, c)]] == c
    {
      assert c in places;
      var i :| 0 <= i < |places| && places[i] == c;
      assert nodes[i].id in idToIndex;
      var w := idToIndex[nodes[i].id];
      NamesInjective(t, half, places[w], c);
    }
    if LinkFrom(idToIndex, links, u, v) {
      var link :| link in links && link.from in idToIndex && link.to in idToIndex
        && idToIndex[link.from] == u && idToIndex[link.to] == v;
      var i :| 0 <= i < |links| && links[i] == link;
      var (c, d) := ends[i];
      assert (c, d) in ends;
    }
    if Uplink(places[u], places[v]) {
      assert (places[u], places[v]) in ends;
      var i :| 0 <= i < |ends| && ends[i] == (places[u], places[v]);
      assert links[i] in links;
    }
  }

  lemma FatTreeIsSameNetwork(t: DcnTopo, half: Half, g: Graph, nodes: seq<Node>, places: seq<Place>, links: seq<NamedLink>,
                             ends: seq<(Place, Place)>, idToIndex: map<string, nat>, numbers: seq<nat>)
    requires IsFatTree(t, half) && FatTree.IsFatGraph(t, half, g) && Valid(g)
    requires Depicts(half, nodes, links, places, ends) && IsIdIndex(nodes, idToIndex)
    requires |numbers| == |nodes| && forall i :: 0 <= i < |nodes| ==> numbers[i] == IdOf(t, places[i])
    ensures SameNetwork(t, g, nodes, links, idToIndex, numbers)
  {
    hide IsFatTree, InTree, Uplink, Name, IdOf, PlaceOf, LinkFrom, IsIdIndex, AreLinksAt, DcnTopo.KindOf;
    FatTreeSizes(t, half);
    forall i | 0 <= i < |nodes|
      ensures InTree(half, places[i]) && numbers[i] < t.total && PlaceOf(t, half, numbers[i]) == places[i]
      ensures nodes[i].kind == t.KindOf(numbers[i])
    {
      assert places[i] in places;
      IdThenPlace(t, half, places[i]);
    }
    forall x: nat | x < t.total
      ensures x in numbers && InTree(half, PlaceOf(t, half, x)) && t.KindOf(x) == KindAt(PlaceOf(t, half, x))
    {
      PlaceThenId(t, half, x);
      IdThenPlace(t, half, PlaceOf(t, half, x));
      assert PlaceOf(t, half, x) in places;
      var i :| 0 <= i < |places| && places[i] == PlaceOf(t, half, x);
      assert numbers[i] == x;
    }
    forall u: nat, v: nat | u < |nodes| && v < |nodes|
      ensures JoinedByName(idToIndex, links, u, v) <==> numbers[v] in g[numbers[u]]
    {
      NamedUplinks(t, half, nodes, places, links, ends, idToIndex, u, v);
      NamedUplinks(t, half, nodes, places, links, ends, idToIndex, v, u);
    }
    forall x: nat, y: nat | x < t.total && y in g[x]
      ensures AdjacentKinds(t.KindOf(x), t.KindOf(y))
    {
      NeighbourKinds(PlaceOf(t, half, x), PlaceOf(t, half, y));
    }
    AllNumbersOnce(numbers, t.total);
  }

  /** Links join neighbouring layers only, so the fallback rate is never used. */
  lemma NeighbourKinds(c: Place, d: Place)
    requires Adjacent(c, d)
    ensures AdjacentKinds(KindAt(c), KindAt(d))
  {
  }
}
