/**
  The closed form of the hop tables for the one- and two-layer topologies, for every number of ToR
  switches, aggregation switches and servers.
*/
module TwoTier {
  import opened Arith
  import opened Graphs
  import opened Bfs
  import opened HopTable
  import opened DcnTopo

  /** `hosts` hosts, `servers` below each ToR, then the ToRs, then the aggregation switches. */
  datatype Shape = Shape(tors: nat, aggs: nat, servers: nat) {
    function Hosts(): nat { tors * servers }

    function Total(): nat { Hosts() + tors + aggs }

    predicate IsHost(u: nat) { u < Hosts() }

    predicate IsTor(u: nat) { Hosts() <= u < Hosts() + tors }

    predicate IsAgg(u: nat) { Hosts() + tors <= u < Total() }

    /** The id of the ToR above a host. */
    function Above(u: nat): nat
      requires servers > 0
    {
      Hosts() + u / servers
    }

    /** Some pair of hosts sits below different ToRs that an aggregation switch joins. */
    predicate Spread() { tors >= 2 && aggs >= 1 && servers >= 1 }

    ghost predicate IsGraph(g: Graph) {
      |g| == Total()
      && forall u: nat, v: nat :: u < Total() ==>
        (v in g[u] <==> TwoTierLink(tors, aggs, servers, u, v) || TwoTierLink(tors, aggs, servers, v, u))
    }

    /** Hops from the host `x` to `v`, -1 when there is no way. */
    function HopsFromHost(x: nat, v: nat): int
      requires servers > 0
    {
      if IsHost(v) then
        if v == x then 0 else if Above(v) == Above(x) then 2 else if aggs > 0 then 4 else -1
      else if IsTor(v) then
        if v == Above(x) then 1 else if aggs > 0 then 3 else -1
      else 2
    }

    /** The table entry of the link from `u` to `v`. */
    function ClosedForm(u: nat, v: nat): nat {
      if IsHost(u) then if Spread() then 4 else if servers >= 2 then 2 else 1
      else if IsTor(u) then if IsAgg(v) && Spread() then 3 else 1
      else if servers >= 1 then 2 else 1
    }
  }

  lemma AboveIsTor(s: Shape, x: nat)
    requires s.IsHost(x)
    ensures s.servers > 0 && s.IsTor(s.Above(x))
  {
  }

  lemma BlockOf(s: Shape, q: nat, i: nat)
    requires q < s.tors && i < s.servers
    ensures q * s.servers + i < s.tors * s.servers && (q * s.servers + i) / s.servers == q
  {
    MixBound(q, i, s.tors, s.servers);
    DivMix(q, i, s.servers);
  }

  /** The `i`-th host below a ToR. */
  lemma HostBelow(s: Shape, tor: nat, i: nat) returns (x: nat)
    requires s.IsTor(tor) && i < s.servers
    ensures s.IsHost(x) && s.Above(x) == tor && x == (tor - s.Hosts()) * s.servers + i
  {
    var q: nat := tor - s.Hosts();
    x := q * s.servers + i;
    BlockOf(s, q, i);
  }

  lemma AdjacencyIsTwoTier(s: Shape, links: seq<Link>, g: Graph)
    requires AreTwoTierLinks(s.tors, s.aggs, s.servers, links) && IsAdjacency(s.Total(), links, g)
    ensures s.IsGraph(g) && Valid(g) && Symmetric(g)
  {
    hide AreTwoTierLinks;
    TwoTierMembers(s.tors, s.aggs, s.servers, links);
    AdjacencyIsUndirected(s.Total(), links, g);
    forall u: nat, v: nat | TwoTierLink(s.tors, s.aggs, s.servers, u, v)
      ensures u < s.Total() && v < s.Total()
    {
      if s.IsHost(u) { AboveIsTor(s, u); }
    }
    forall u: nat, v: nat | u < s.Total()
      ensures v in g[u] <==> TwoTierLink(s.tors, s.aggs, s.servers, u, v) || TwoTierLink(s.tors, s.aggs, s.servers, v, u)
    {
      assert Joined(links, u, v) <==> Link(u, v) in links || Link(v, u) in links;
    }
  }

  lemma NeighbourKinds(s: Shape, g: Graph, u: nat, v: nat)
    requires s.IsGraph(g) && u < s.Total() && v in g[u]
    ensures v < s.Total()
    ensures || (s.IsHost(u) && s.servers > 0 && v == s.Above(u) && s.IsTor(v))
            || (s.IsTor(u) && s.IsHost(v) && s.servers > 0 && u == s.Above(v))
            || (s.IsTor(u) && s.IsAgg(v))
            || (s.IsAgg(u) && s.IsTor(v))
  {
    if s.IsHost(u) { AboveIsTor(s, u); }
    if s.IsHost(v) { AboveIsTor(s, v); }
  }

  lemma HostDistances(s: Shape, g: Graph, x: nat)
    requires s.IsGraph(g) && s.IsHost(x)
    ensures s.servers > 0 && forall v: nat :: v < s.Total() ==> Dist(g, x, v) == s.HopsFromHost(x, v)
  {
    hide Shape.IsHost, Shape.HopsFromHost;
    AboveIsTor(s, x);
    GraphSize(s, g, x);
    var level := seq(|g|, v requires 0 <= v < |g| => s.HopsFromHost(x, v));
    HopsAreLevels(s, g, x, level);
    LevelsAreDistances(g, x, level);
  }

  /** The table of `HopsFromHost(x, _)`. */
  ghost predicate HopRow(s: Shape, x: nat, level: seq<int>)
    requires s.servers > 0
  {
    |level| == s.Total() && forall v: nat :: v < |level| ==> level[v] == s.HopsFromHost(x, v)
  }

  lemma HopsAreLevels(s: Shape, g: Graph, x: nat, level: seq<int>)
    requires s.IsGraph(g) && s.IsHost(x) && s.servers > 0 && HopRow(s, x, level)
    ensures IsLevelling(g, x, level)
  {
    GraphSize(s, g, x);
    ZeroAtHost(s, x, level);
    HopsRise(s, g, x, level);
    HopsFromBelow(s, g, x, level);
  }

  lemma ZeroAtHost(s: Shape, x: nat, level: seq<int>)
    requires s.IsHost(x) && s.servers > 0 && HopRow(s, x, level)
    ensures ZeroAtSource(x, level)
  {
  }

  lemma HopsRise(s: Shape, g: Graph, x: nat, level: seq<int>)
    requires s.IsGraph(g) && s.IsHost(x) && s.servers > 0 && HopRow(s, x, level) && |level| == |g|
    ensures RisesByOne(g, level)
  {
    hide Shape.IsHost, Shape.HopsFromHost;
    forall u: nat, v: nat | u < |g| && v in g[u] && level[u] >= 0
      ensures v < |g| && 0 <= level[v] <= level[u] + 1
    {
      HopsDifferByOne(s, g, x, u, v);
    }
  }

  lemma HopsFromBelow(s: Shape, g: Graph, x: nat, level: seq<int>)
    requires s.IsGraph(g) && s.IsHost(x) && s.servers > 0 && HopRow(s, x, level) && |level| == |g|
    ensures FromBelow(g, level)
  {
    hide Shape.IsHost, Shape.HopsFromHost, HasLower;
    forall v: nat | v < |g| && level[v] > 0
      ensures HasLower(g, level, v)
    {
      NearerNode(s, g, x, v, level);
    }
  }

  lemma GraphSize(s: Shape, g: Graph, x: nat)
    requires s.IsGraph(g) && s.IsHost(x)
    ensures x < |g| == s.Total()
  {
  }

  lemma HopsDifferByOne(s: Shape, g: Graph, x: nat, u: nat, v: nat)
    requires s.IsGraph(g) && s.IsHost(x) && s.servers > 0 && u < s.Total() && v in g[u] && s.HopsFromHost(x, u) >= 0
    ensures v < s.Total() && 0 <= s.HopsFromHost(x, v) <= s.HopsFromHost(x, u) + 1
  {
    hide TwoTierLink, Shape.Hosts;
    NeighbourKinds(s, g, u, v);
  }

  lemma NearerNode(s: Shape, g: Graph, x: nat, v: nat, level: seq<int>)
    requires s.IsGraph(g) && s.IsHost(x) && v < s.Total() && s.servers > 0 && s.HopsFromHost(x, v) > 0
    requires HopRow(s, x, level) && |level| == |g|
    ensures HasLower(g, level, v)
  {
    var u := Nearer(s, x, v);
    assert v in g[u];
  }

  /** A neighbour of `v` that is one hop nearer to the host `x`. */
  lemma Nearer(s: Shape, x: nat, v: nat) returns (u: nat)
    requires s.IsHost(x) && v < s.Total() && s.servers > 0 && s.HopsFromHost(x, v) > 0
    ensures u < s.Total() && (TwoTierLink(s.tors, s.aggs, s.servers, u, v) || TwoTierLink(s.tors, s.aggs, s.servers, v, u))
    ensures s.HopsFromHost(x, u) == s.HopsFromHost(x, v) - 1
  {
    AboveIsTor(s, x);
    if s.IsHost(v) {
      AboveIsTor(s, v);
      u := s.Above(v);
    } else if s.IsTor(v) {
      u := if v == s.Above(x) then x else s.Hosts() + s.tors;
    } else {
      u := s.Above(x);
    }
  }

  /** Some host is served through the link `u -> v` at the distance of the closed form, unless that is 1. */
  lemma FarthestHost(s: Shape, g: Graph, u: nat, v: nat) returns (x: nat)
    requires s.IsGraph(g) && u < s.Total() && v in g[u] && s.ClosedForm(u, v) > 1
    ensures s.IsHost(x) && s.servers > 0
    ensures s.HopsFromHost(x, u) == s.ClosedForm(u, v) && s.HopsFromHost(x, v) == s.ClosedForm(u, v) - 1
  {
    NeighbourKinds(s, g, u, v);
    var base := s.Hosts();
    if s.IsAgg(u) {
      x := HostBelow(s, v, 0);
    } else if s.Spread() {
      var tor := if s.IsHost(u) then v else u;
      x := HostBelow(s, if tor == base then base + 1 else base, 0);
    } else {
      x := HostBelow(s, v, 0);
      if x == u { x := HostBelow(s, v, 1); }
    }
  }

  /** The directed-link table of the one- and two-layer topologies: 4, 3, 2, 1 when two ToRs are joined
      and have servers, with the degenerate cases spelled out in `Shape.ClosedForm`. */
  lemma TwoTierTable(s: Shape, links: seq<Link>, g: Graph, table: map<nat, nat>, u: nat, v: nat)
    requires AreTwoTierLinks(s.tors, s.aggs, s.servers, links) && IsAdjacency(s.Total(), links, g)
    requires IsHopTable(g, HostSet(s.Hosts()), table) && u < s.Total() && v in g[u]
    ensures table[MakeDirectedLinkKey(u, v)] == s.ClosedForm(u, v)
  {
    AdjacencyIsTwoTier(s, links, g);
    TwoTierEntry(s, g, u, v);
    LongestViaUnique(g, HostSet(s.Hosts()), u, v, table[MakeDirectedLinkKey(u, v)], s.ClosedForm(u, v));
  }

  lemma TwoTierEntry(s: Shape, g: Graph, u: nat, v: nat)
    requires s.IsGraph(g) && Valid(g) && Symmetric(g) && u < s.Total() && v in g[u]
    ensures LongestVia(g, HostSet(s.Hosts()), u, v, s.ClosedForm(u, v))
  {
    hide Shape.Hosts, TwoTierLink, TorBlocks;
    NeighbourKinds(s, g, u, v);
    forall x: nat | s.IsHost(x)
      ensures s.servers > 0 && Dist(g, u, x) == s.HopsFromHost(x, u) && Dist(g, v, x) == s.HopsFromHost(x, v)
      ensures StartsShortest(g, u, v, x) <==> Dist(g, u, x) > 0 && Dist(g, v, x) >= 0 && Dist(g, u, x) == Dist(g, v, x) + 1
    {
      HostDistances(s, g, x);
      DistSymmetric(g, u, x);
      DistSymmetric(g, v, x);
      FirstHopTest(g, u, v, x);
    }
    forall x: nat | s.IsHost(x) && StartsShortest(g, u, v, x)
      ensures Dist(g, u, x) <= s.ClosedForm(u, v)
    {
      NoFarther(s, g, u, v, x);
    }
    if s.ClosedForm(u, v) > 1 {
      var x := FarthestHost(s, g, u, v);
      assert x in HostSet(s.Hosts()) && StartsShortest(g, u, v, x);
    }
  }

  lemma NoFarther(s: Shape, g: Graph, u: nat, v: nat, x: nat)
    requires s.IsGraph(g) && u < s.Total() && v in g[u] && s.IsHost(x) && s.servers > 0
    requires s.HopsFromHost(x, u) > 0 && s.HopsFromHost(x, u) == s.HopsFromHost(x, v) + 1
    ensures s.HopsFromHost(x, u) <= s.ClosedForm(u, v)
  {
    NeighbourKinds(s, g, u, v);
    AboveIsTor(s, x);
    if s.IsHost(u) {
      AboveIsTor(s, u);
      if s.servers == 1 { assert u / 1 == u && x / 1 == x; }
    }
  }

  /** The host-to-host maximum of the one- and two-layer topologies. */
  lemma TwoTierDiameter(s: Shape, links: seq<Link>, g: Graph, m: nat)
    requires AreTwoTierLinks(s.tors, s.aggs, s.servers, links) && IsAdjacency(s.Total(), links, g)
    requires IsDiameter(g, HostSet(s.Hosts()), m)
    ensures m == if s.Spread() then 4 else if s.tors >= 1 && s.servers >= 2 then 2 else 1
  {
    hide Shape.Hosts, TwoTierLink, TorBlocks;
    AdjacencyIsTwoTier(s, links, g);
    forall x: nat | s.IsHost(x)
      ensures s.servers > 0 && forall v: nat :: v < s.Total() ==> Dist(g, x, v) == s.HopsFromHost(x, v)
    {
      HostDistances(s, g, x);
    }
    var base := s.Hosts();
    if s.Spread() {
      var x := HostBelow(s, base, 0);
      var y := HostBelow(s, base + 1, 0);
      assert x in HostSet(s.Hosts()) && y in HostSet(s.Hosts()) && Dist(g, x, y) == 4;
    } else if s.tors >= 1 && s.servers >= 2 {
      var x := HostBelow(s, base, 0);
      var y := HostBelow(s, base, 1);
      assert x in HostSet(s.Hosts()) && y in HostSet(s.Hosts()) && Dist(g, x, y) == 2;
    }
    forall x: nat, y: nat | s.IsHost(x) && s.IsHost(y)
      ensures Dist(g, x, y) <= if s.Spread() then 4 else if s.tors >= 1 && s.servers >= 2 then 2 else 1
    {
      PairBound(s, x, y);
    }
  }

  lemma PairBound(s: Shape, x: nat, y: nat)
    requires s.IsHost(x) && s.IsHost(y) && s.servers > 0
    ensures s.HopsFromHost(x, y) <= if s.Spread() then 4 else if s.tors >= 1 && s.servers >= 2 then 2 else 1
  {
    AboveIsTor(s, x);
    AboveIsTor(s, y);
    if s.servers == 1 { assert x / 1 == x && y / 1 == y; }
  }
}
