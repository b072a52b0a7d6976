/**
  The models of the two programs on one configuration: the simulator's links and its two hop tables
  (`main` in ns3/scratch/DCN.cc) beside the browser's own topology and capacity table
  (frontend/app/page.tsx), compared entry by entry.
*/
module Network {
  import opened Arith
  import opened Graphs
  import opened Bfs
  import opened HopTable
  import opened Text
  import opened DcnTopo
  import opened FrontendIds
  import opened Capacity
  import opened FrontendTopology
  import opened FrontendTwoTier
  import FatTree
  import TwoTier

  /** The simulator's side for any layer count: link list, directed-link table, host-to-host maximum. */
  method Simulate(t: DcnTopo) returns (links: seq<Link>, hops: map<nat, nat>, maxHostHops: nat)
    requires t.numHosts <= t.total <= 0x1_0000_0000
    requires t.layers == 3 ==> t.kPods >= 2 && IsFatTree(t, t.kPods / 2)
    requires t.layers == 2 ==> IsTwoTier(t, t.torCount, t.aggCount, t.serversPerTor)
    requires t.layers != 2 && t.layers != 3 ==> IsTwoTier(t, 1, 0, t.serversPerTor)
    ensures t.layers == 3 ==> AreFatLinks(t, t.kPods / 2, links)
    ensures t.layers == 2 ==> AreTwoTierLinks(t.torCount, t.aggCount, t.serversPerTor, links)
    ensures t.layers != 2 && t.layers != 3 ==> AreTwoTierLinks(1, 0, t.serversPerTor, links)
    ensures IsHopTable(Adjacency(t.total, links), HostSet(t.numHosts), hops)
    ensures IsDiameter(Adjacency(t.total, links), HostSet(t.numHosts), maxHostHops)
  {
    hide *;
    links := BuildLinks(t);
    hops := ComputeMaxDownstreamHostHopsPerDirectedLink(t.numHosts, t.total, links);
    maxHostHops := ComputeMaxHostToHostHops(t.numHosts, t.total, links);
  }

  /** Under the string "x-y" the browser shows what the link from `x` to `y` needs for `m` hops. */
  ghost predicate ShowsBytes(t: DcnTopo, rates: LinkRates, delaySeconds: real, capacities: map<string, nat>, x: nat, y: nat, m: nat) {
    var key := Decimal(x) + "-" + Decimal(y);
    key in capacities && capacities[key] == BrowserQueueBytes(RateForLink(t, Link(x, y), rates), m, delaySeconds)
  }

  lemma ShownByName(t: DcnTopo, g: Graph, rates: LinkRates, delaySeconds: real, hops: map<nat, nat>,
                    capacities: map<string, nat>, x: nat, y: nat)
    requires SameTables(t, g, rates, delaySeconds, hops, capacities) && x < |g| && y in g[x]
    ensures MakeDirectedLinkKey(x, y) in hops
    ensures ShowsBytes(t, rates, delaySeconds, capacities, x, y, hops[MakeDirectedLinkKey(x, y)])
  {
    hide BrowserQueueBytes, RateForLink, Decimal;
    assert LinkName(x, y) in capacities;
  }

  lemma FatLink(t: DcnTopo, half: Half, g: Graph, c: Place, d: Place)
    requires IsFatTree(t, half) && FatTree.IsFatGraph(t, half, g) && InTree(half, c) && InTree(half, d) && Adjacent(c, d)
    ensures IdOf(t, c) < |g| && IdOf(t, d) in g[IdOf(t, c)]
  {
    hide IsFatTree, InTree, IdOf, PlaceOf;
    IdThenPlace(t, half, c);
    IdThenPlace(t, half, d);
    assert FatTree.Neighbours(t, half, IdOf(t, c), IdOf(t, d));
  }

  /** The fat tree of degree 2 * half, on both sides. */
  method FatTreeOnBothSides(half: Half, torCount: nat, aggCount: nat, serversPerTor: nat, rates: LinkRates, delaySeconds: real)
    returns (t: DcnTopo, links: seq<Link>, hops: map<nat, nat>, maxHostHops: nat, capacities: map<string, nat>)
    requires MakeTopo(3, 2 * half, torCount, aggCount, serversPerTor).total <= 0x1_0000_0000
    ensures t == MakeTopo(3, 2 * half, torCount, aggCount, serversPerTor) && FatTree.IsFatGraph(t, half, Adjacency(t.total, links))
    ensures forall c, d :: InTree(half, c) && InTree(half, d) && Adjacent(c, d) ==>
      MakeDirectedLinkKey(IdOf(t, c), IdOf(t, d)) in hops
      && hops[MakeDirectedLinkKey(IdOf(t, c), IdOf(t, d))] == FatTree.ClosedForm(c, d)
    ensures maxHostHops == 6
    ensures SameTables(t, Adjacency(t.total, links), rates, delaySeconds, hops, capacities)
    ensures forall c, d :: InTree(half, c) && InTree(half, d) && Adjacent(c, d) ==>
      ShowsBytes(t, rates, delaySeconds, capacities, IdOf(t, c), IdOf(t, d), FatTree.ClosedForm(c, d))
  {
    hide *;
    t := MakeTopo(3, 2 * half, torCount, aggCount, serversPerTor);
    assert IsFatTree(t, half) && t.layers == 3 && t.kPods == 2 * half by { TopoIsFat(half, torCount, aggCount, serversPerTor); }
    FatTreeSizes(t, half);
    links, hops, maxHostHops := Simulate(t);
    ghost var g := Adjacency(t.total, links);
    FatTree.AdjacencyIsFat(t, half, links, g);
    FatTree.FatTreeDiameter(t, half, links, g, maxHostHops);
    forall c, d | InTree(half, c) && InTree(half, d) && Adjacent(c, d)
      ensures MakeDirectedLinkKey(IdOf(t, c), IdOf(t, d)) in hops
      ensures hops[MakeDirectedLinkKey(IdOf(t, c), IdOf(t, d))] == FatTree.ClosedForm(c, d)
    {
      FatTree.FatTreeTable(t, half, links, g, hops, c, d);
    }
    var built := BuildFatTree(2 * half);
    var resolve := id => SvgIdToNumeric(id, half);
    capacities := ComputeQueueCapacityBytesByDirectedLink(built.nodes, built.links, rates, delaySeconds, resolve);
    ghost var idToIndex := IndexOf(built.nodes);
    ghost var adj := NamedGraph(built.nodes, idToIndex, built.links);
    NamedGraphIsAdjacency(built.nodes, idToIndex, built.links);
    ghost var places, ends := Drawing(half, built.nodes, built.links);
    ghost var numbers := FatNumbers(t, half, built.nodes, places, resolve);
    FatTreeIsSameNetwork(t, half, g, built.nodes, places, built.links, ends, idToIndex, numbers);
    TablesAgree(t, g, built.nodes, built.links, idToIndex, numbers, adj, rates, delaySeconds, hops, capacities);
    forall c, d | InTree(half, c) && InTree(half, d) && Adjacent(c, d)
      ensures ShowsBytes(t, rates, delaySeconds, capacities, IdOf(t, c), IdOf(t, d), FatTree.ClosedForm(c, d))
    {
      FatLink(t, half, g, c, d);
      ShownByName(t, g, rates, delaySeconds, hops, capacities, IdOf(t, c), IdOf(t, d));
    }
  }

  lemma Drawing(half: Half, nodes: seq<Node>, links: seq<NamedLink>) returns (places: seq<Place>, ends: seq<(Place, Place)>)
    requires IsFatDrawing(half, nodes, links)
    ensures FrontendTopology.Depicts(half, nodes, links, places, ends) && AreNodesAt(half, nodes, places)
  {
    places, ends :| FrontendTopology.Depicts(half, nodes, links, places, ends);
  }

  lemma TopoIsFat(half: Half, torCount: nat, aggCount: nat, serversPerTor: nat)
    ensures var t := MakeTopo(3, 2 * half, torCount, aggCount, serversPerTor);
      IsFatTree(t, half) && t.layers == 3 && t.kPods == 2 * half
  {
  }

  lemma FatNumbers(t: DcnTopo, half: Half, nodes: seq<Node>, places: seq<Place>, resolve: string -> int)
    returns (numbers: seq<nat>)
    requires IsFatTree(t, half) && AreNodesAt(half, nodes, places)
    requires forall id :: resolve(id) == SvgIdToNumeric(id, half)
    ensures |numbers| == |nodes| && forall i :: 0 <= i < |nodes| ==> numbers[i] == IdOf(t, places[i])
    ensures numbers == Numbers(nodes, resolve)
  {
    hide SvgIdToNumeric, Name, IdOf, IsFatTree;
    numbers := seq(|nodes|, i requires 0 <= i < |places| => IdOf(t, places[i]));
    forall i | 0 <= i < |nodes|
      ensures resolve(nodes[i].id) == IdOf(t, places[i])
    {
      NameToId(t, half, places[i]);
    }
  }

  /** A two-layer topology, on both sides: equal tables exactly when no count is 0. */
  method TwoTierOnBothSides(tors: nat, aggs: nat, servers: nat, kPods: nat, rates: LinkRates, delaySeconds: real)
    returns (t: DcnTopo, links: seq<Link>, hops: map<nat, nat>, maxHostHops: nat, capacities: map<string, nat>)
    requires tors * servers + tors + aggs <= 0x1_0000_0000
    ensures t == MakeTopo(2, kPods, tors, aggs, servers)
    ensures var s := TwoTier.Shape(tors, aggs, servers);
      var g := Adjacency(t.total, links);
      && s.IsGraph(g)
      && (forall u: nat, v: nat :: u < s.Total() && v in g[u] ==>
            MakeDirectedLinkKey(u, v) in hops && hops[MakeDirectedLinkKey(u, v)] == s.ClosedForm(u, v))
      && maxHostHops == if s.Spread() then 4 else if tors >= 1 && servers >= 2 then 2 else 1
    ensures SameTables(t, Adjacency(t.total, links), rates, delaySeconds, hops, capacities) <==> tors >= 1 && aggs >= 1 && servers >= 1
    ensures tors >= 1 && aggs >= 1 && servers >= 1 ==>
      var s := TwoTier.Shape(tors, aggs, servers);
      var g := Adjacency(t.total, links);
      forall u: nat, v: nat :: u < s.Total() && v in g[u] ==>
        ShowsBytes(t, rates, delaySeconds, capacities, u, v, s.ClosedForm(u, v))
  {
    hide ShowsBytes, LinkName, BrowserQueueBytes;
    hide AreTwoTierLinks, IsHopTable, IsDiameter, IsAdjacency, SameTables, SameNetwork, IsCapacityTable, IsNamedAdjacency, IsIdIndex;
    t := MakeTopo(2, kPods, tors, aggs, servers);
    ghost var s := TwoTier.Shape(tors, aggs, servers);
    links, hops, maxHostHops := Simulate(t);
    ghost var g := Adjacency(t.total, links);
    TwoTier.AdjacencyIsTwoTier(s, links, g);
    TwoTier.TwoTierDiameter(s, links, g, maxHostHops);
    forall u: nat, v: nat | u < s.Total() && v in g[u]
      ensures MakeDirectedLinkKey(u, v) in hops && hops[MakeDirectedLinkKey(u, v)] == s.ClosedForm(u, v)
    {
      assert MakeDirectedLinkKey(u, v) in hops by { EntryPresent(g, HostSet(t.numHosts), hops, u, v); }
      TwoTier.TwoTierTable(s, links, g, hops, u, v);
    }
    var built := BuildTwoLayerTopology(tors, aggs, servers);
    var resolve := id => TwoTierNumeric(tors, servers, id);
    capacities := ComputeQueueCapacityBytesByDirectedLink(built.nodes, built.links, rates, delaySeconds, resolve);
    ghost var idToIndex := IndexOf(built.nodes);
    ghost var adj := NamedGraph(built.nodes, idToIndex, built.links);
    NamedGraphIsAdjacency(built.nodes, idToIndex, built.links);
    ghost var shown := TwoTier.Shape(AtLeastOne(tors), AtLeastOne(aggs), AtLeastOne(servers));
    ghost var numbers, ends := TwoTierDrawing(shown, built.nodes, built.links);
    if tors >= 1 && aggs >= 1 && servers >= 1 {
      NumbersResolve(s, built.nodes, numbers);
      assert Numbers(built.nodes, resolve) == numbers;
      TwoTierIsSameNetwork(t, s, g, built.nodes, numbers, built.links, ends, idToIndex);
      TablesAgree(t, g, built.nodes, built.links, idToIndex, numbers, adj, rates, delaySeconds, hops, capacities);
      forall u: nat, v: nat | u < s.Total() && v in g[u]
        ensures ShowsBytes(t, rates, delaySeconds, capacities, u, v, s.ClosedForm(u, v))
      {
        ShownByName(t, g, rates, delaySeconds, hops, capacities, u, v);
      }
    } else {
      assert Numbers(built.nodes, resolve) == Numbers(built.nodes, id => TwoTierNumeric(tors, servers, id));
      AlwaysShown(tors, servers, shown, built.nodes, numbers, built.links, ends, idToIndex, adj, rates, delaySeconds, capacities);
      CountsDisagree(t, tors, aggs, servers, g, rates, delaySeconds, hops, capacities);
    }
  }

  lemma TwoTierDrawing(s: TwoTier.Shape, nodes: seq<Node>, links: seq<NamedLink>) returns (numbers: seq<nat>, ends: seq<(nat, nat)>)
    requires IsTwoTierDrawing(s, nodes, links)
    ensures FrontendTwoTier.Depicts(s, nodes, links, numbers, ends)
  {
    numbers, ends :| FrontendTwoTier.Depicts(s, nodes, links, numbers, ends);
  }

  lemma EntryPresent(g: Graph, hosts: set<nat>, table: map<nat, nat>, u: nat, v: nat)
    requires IsHopTable(g, hosts, table) && u < |g| && v in g[u]
    ensures MakeDirectedLinkKey(u, v) in table
  {
  }
}
