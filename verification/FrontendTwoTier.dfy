/**
  The browser's two-layer builder (`buildTwoLayerTopology` in frontend/app/page.tsx). It replaces every
  count below 1 by 1, which the simulator does not do: the two programs describe the same network
  exactly when all three counts are at least 1.
*/
module FrontendTwoTier {
  import opened Lists
  import opened Arith
  import opened Graphs
  import opened Bfs
  import opened HopTable
  import opened Text
  import opened DcnTopo
  import opened TwoTier
  import opened FrontendIds
  import opened Capacity
  import opened FrontendTopology

  function KindIn(s: Shape, n: nat): NodeKind {
    if s.IsHost(n) then Host else if s.IsTor(n) then Tor else Agg
  }

  ghost predicate AreNumbered(s: Shape, nodes: seq<Node>, numbers: seq<nat>) {
    |nodes| == |numbers| && forall i :: 0 <= i < |nodes| ==>
      nodes[i] == Node(TwoTierName(s.tors, s.servers, numbers[i]), KindIn(s, numbers[i]))
  }

  ghost predicate AreNamed(s: Shape, links: seq<NamedLink>, ends: seq<(nat, nat)>) {
    |links| == |ends| && forall i :: 0 <= i < |links| ==>
      links[i] == NamedLink(TwoTierName(s.tors, s.servers, ends[i].0), TwoTierName(s.tors, s.servers, ends[i].1))
  }

  lemma NamesByPart(s: Shape, tor: nat, h: nat, a: nat)
    requires tor < s.tors && h < s.servers
    ensures TwoTierName(s.tors, s.servers, tor * s.servers + h) == LeafHostName(tor, h)
    ensures s.IsHost(tor * s.servers + h) && s.Above(tor * s.servers + h) == s.Hosts() + tor
    ensures TwoTierName(s.tors, s.servers, s.Hosts() + tor) == "tor" + "-" + Decimal(tor)
    ensures TwoTierName(s.tors, s.servers, s.Hosts() + s.tors + a) == "agg" + "-" + Decimal(a)
  {
    SwitchNames(s, tor, a);
    HostBlock(s, tor, h);
    assert s.servers * s.tors == s.Hosts();
  }

  lemma HostBlock(s: Shape, tor: nat, h: nat)
    requires tor < s.tors && h < s.servers
    ensures tor * s.servers + h < s.Hosts()
    ensures (tor * s.servers + h) / s.servers == tor && (tor * s.servers + h) % s.servers == h
  {
    MixBound(tor, h, s.tors, s.servers);
    DivMix(tor, h, s.servers);
  }

  lemma SwitchNames(s: Shape, tor: nat, a: nat)
    requires tor < s.tors
    ensures TwoTierName(s.tors, s.servers, s.Hosts() + tor) == "tor" + "-" + Decimal(tor)
    ensures TwoTierName(s.tors, s.servers, s.Hosts() + s.tors + a) == "agg" + "-" + Decimal(a)
  {
    assert s.servers * s.tors == s.Hosts();
  }

  /** Nodes and links drawn for the ToRs before `tor`, the first `h` hosts of ToR `tor` and the first `a` aggregation switches. */
  ghost predicate Drawn(s: Shape, nodes: seq<Node>, links: seq<NamedLink>, numbers: seq<nat>, ends: seq<(nat, nat)>, tor: nat) {
    && AreNumbered(s, nodes, numbers) && AreNamed(s, links, ends) && NoRepeats(numbers) && NoRepeats(ends)
    && (forall n: nat :: n in numbers <==> s.IsAgg(n) || s.Hosts() <= n < s.Hosts() + tor || n < tor * s.servers)
    && (forall u: nat, v: nat :: (u, v) in ends <==>
          TwoTierLink(s.tors, s.aggs, s.servers, u, v) && (u < tor * s.servers || s.Hosts() <= u < s.Hosts() + tor))
  }

  /** The nodes stand for `numbers`, every node number once, and the links for `ends`, every link once. */
  ghost predicate Depicts(s: Shape, nodes: seq<Node>, links: seq<NamedLink>, numbers: seq<nat>, ends: seq<(nat, nat)>) {
    && AreNumbered(s, nodes, numbers) && NoRepeats(numbers) && (forall n: nat :: n in numbers <==> n < s.Total())
    && AreNamed(s, links, ends) && NoRepeats(ends)
    && (forall u: nat, v: nat :: (u, v) in ends <==> TwoTierLink(s.tors, s.aggs, s.servers, u, v))
  }

  /** The nodes and links are those of the two-layer network of this shape, in some order. */
  ghost predicate IsTwoTierDrawing(s: Shape, nodes: seq<Node>, links: seq<NamedLink>) {
    exists numbers: seq<nat>, ends: seq<(nat, nat)> :: Depicts(s, nodes, links, numbers, ends)
  }

  method BuildTwoLayerTopology(torCount: nat, aggCount: nat, serversPerTor: nat)
    returns (r: Built)
    ensures !r.error
    ensures IsTwoTierDrawing(Shape(AtLeastOne(torCount), AtLeastOne(aggCount), AtLeastOne(serversPerTor)), r.nodes, r.links)
  {
    var tors := AtLeastOne(torCount);
    var aggs := AtLeastOne(aggCount);
    var hosts := AtLeastOne(serversPerTor);
    ghost var s := Shape(tors, aggs, hosts);
    hide TwoTierName, TwoTierLink;
    var nodes, links := [], [];
    ghost var numbers: seq<nat>, ends: seq<(nat, nat)> := [], [];
    var i := 0;
    while i < aggs
      invariant i <= aggs && AreNumbered(s, nodes, numbers) && NoRepeats(numbers)
      invariant forall n: nat :: n in numbers <==> s.Hosts() + tors <= n < s.Hosts() + tors + i
    {
      NamesByPart(s, 0, 0, i);
      assert s.Hosts() + tors + i !in numbers;
      nodes, numbers := nodes + [Node("agg" + "-" + Decimal(i), Agg)], numbers + [s.Hosts() + tors + i];
      i := i + 1;
    }
    var t := 0;
    while t < tors
      invariant t <= tors && Drawn(s, nodes, links, numbers, ends, t)
    {
      nodes, links, numbers, ends := DrawTor(tors, aggs, hosts, t, nodes, links, numbers, ends);
      t := t + 1;
    }
    forall u: nat, v: nat | TwoTierLink(tors, aggs, hosts, u, v)
      ensures u < s.Hosts() + tors
    {
      LinkStart(s, u, v);
    }
    assert Depicts(s, nodes, links, numbers, ends);
    r := Built(nodes, links, false);
  }

  lemma LinkStart(s: Shape, u: nat, v: nat)
    requires TwoTierLink(s.tors, s.aggs, s.servers, u, v)
    ensures u < s.Hosts() + s.tors
  {
  }

  /** One ToR, its uplinks and its hosts. */
  method DrawTor(tors: nat, aggs: nat, hosts: nat, t: nat, nodes0: seq<Node>, links0: seq<NamedLink>,
                 ghost numbers0: seq<nat>, ghost ends0: seq<(nat, nat)>)
    returns (nodes: seq<Node>, links: seq<NamedLink>, ghost numbers: seq<nat>, ghost ends: seq<(nat, nat)>)
    requires t < tors && aggs >= 1 && hosts >= 1
    requires Drawn(Shape(tors, aggs, hosts), nodes0, links0, numbers0, ends0, t)
    ensures Drawn(Shape(tors, aggs, hosts), nodes, links, numbers, ends, t + 1)
  {
    ghost var s := Shape(tors, aggs, hosts);
    hide TwoTierName, TwoTierLink;
    BlockOfTor(s, t);
    NamesByPart(s, t, 0, 0);
    nodes, numbers := nodes0 + [Node("tor" + "-" + Decimal(t), Tor)], numbers0 + [s.Hosts() + t];
    assert s.Hosts() + t !in numbers0;
    links, ends := DrawUplinks(tors, aggs, hosts, t, links0, ends0);
    nodes, links, numbers, ends := DrawHosts(tors, aggs, hosts, t, nodes, links, numbers, ends);
    forall u: nat, v: nat
      ensures (u, v) in ends <==>
        TwoTierLink(tors, aggs, hosts, u, v) && (u < (t + 1) * hosts || s.Hosts() <= u < s.Hosts() + t + 1)
    {
      LinksOfTor(s, t, u, v);
    }
  }

  method DrawUplinks(ghost tors: nat, aggs: nat, ghost hosts: nat, t: nat, links0: seq<NamedLink>, ghost ends0: seq<(nat, nat)>)
    returns (links: seq<NamedLink>, ghost ends: seq<(nat, nat)>)
    requires t < tors && hosts >= 1 && AreNamed(Shape(tors, aggs, hosts), links0, ends0) && NoRepeats(ends0)
    requires forall u: nat, v: nat :: u == tors * hosts + t ==> (u, v) !in ends0
    ensures var s := Shape(tors, aggs, hosts);
      AreNamed(s, links, ends) && NoRepeats(ends)
      && forall u: nat, v: nat :: (u, v) in ends <==> (u, v) in ends0 || (u == s.Hosts() + t && s.IsAgg(v))
  {
    hide TwoTierName;
    ghost var s := Shape(tors, aggs, hosts);
    links, ends := links0, ends0;
    var a := 0;
    while a < aggs
      invariant a <= aggs && AreNamed(s, links, ends) && NoRepeats(ends)
      invariant forall u: nat, v: nat :: (u, v) in ends <==>
        (u, v) in ends0 || (u == s.Hosts() + t && s.Hosts() + tors <= v < s.Hosts() + tors + a)
    {
      NamesByPart(s, t, 0, a);
      links, ends := links + [NamedLink("tor" + "-" + Decimal(t), "agg" + "-" + Decimal(a))],
                     ends + [(s.Hosts() + t, s.Hosts() + tors + a)];
      a := a + 1;
    }
  }

  method DrawHosts(ghost tors: nat, ghost aggs: nat, hosts: nat, t: nat, nodes0: seq<Node>, links0: seq<NamedLink>,
                   ghost numbers0: seq<nat>, ghost ends0: seq<(nat, nat)>)
    returns (nodes: seq<Node>, links: seq<NamedLink>, ghost numbers: seq<nat>, ghost ends: seq<(nat, nat)>)
    requires t < tors && hosts >= 1
    requires var s := Shape(tors, aggs, hosts);
      AreNumbered(s, nodes0, numbers0) && AreNamed(s, links0, ends0) && NoRepeats(numbers0) && NoRepeats(ends0)
      && (forall n: nat :: t * hosts <= n < t * hosts + hosts ==> n !in numbers0)
      && (forall n: nat, v: nat :: t * hosts <= n < t * hosts + hosts ==> (n, v) !in ends0)
    ensures var s := Shape(tors, aggs, hosts);
      AreNumbered(s, nodes, numbers) && AreNamed(s, links, ends) && NoRepeats(numbers) && NoRepeats(ends)
      && (forall n: nat :: n in numbers <==> n in numbers0 || t * hosts <= n < t * hosts + hosts)
      && (forall u: nat, v: nat :: (u, v) in ends <==>
            (u, v) in ends0 || (t * hosts <= u < t * hosts + hosts && v == s.Hosts() + t))
  {
    hide TwoTierName;
    ghost var s := Shape(tors, aggs, hosts);
    ghost var first := t * hosts;
    nodes, links, numbers, ends := nodes0, links0, numbers0, ends0;
    var h := 0;
    while h < hosts
      invariant h <= hosts && AreNumbered(s, nodes, numbers) && AreNamed(s, links, ends)
      invariant NoRepeats(numbers) && NoRepeats(ends)
      invariant forall n: nat :: n in numbers <==> n in numbers0 || first <= n < first + h
      invariant forall u: nat, v: nat :: (u, v) in ends <==> (u, v) in ends0 || (first <= u < first + h && v == s.Hosts() + t)
    {
      NamesByPart(s, t, h, 0);
      assert first + h !in numbers;
      nodes, numbers := nodes + [Node(LeafHostName(t, h), Host)], numbers + [first + h];
      links, ends := links + [NamedLink(LeafHostName(t, h), "tor" + "-" + Decimal(t))], ends + [(first + h, s.Hosts() + t)];
      h := h + 1;
    }
  }

  lemma BlockOfTor(s: Shape, t: nat)
    requires t < s.tors
    ensures (t + 1) * s.servers == t * s.servers + s.servers && t * s.servers + s.servers <= s.Hosts()
  {
  }

  /** The links that ToR `t` adds. */
  lemma LinksOfTor(s: Shape, t: nat, u: nat, v: nat)
    requires t < s.tors
    ensures TwoTierLink(s.tors, s.aggs, s.servers, u, v) && (u < (t + 1) * s.servers || s.Hosts() <= u < s.Hosts() + t + 1)
      <==> || (TwoTierLink(s.tors, s.aggs, s.servers, u, v) && (u < t * s.servers || s.Hosts() <= u < s.Hosts() + t))
           || (u == s.Hosts() + t && s.IsAgg(v))
           || (t * s.servers <= u < t * s.servers + s.servers && v == s.Hosts() + t)
  {
    BlockOfTor(s, t);
    HostsOfTor(s.tors, s.servers, t, u);
  }

  // ---------- the same network, if every count is at least 1 ----------

  lemma NumbersResolve(s: Shape, nodes: seq<Node>, numbers: seq<nat>)
    requires AreNumbered(s, nodes, numbers)
    ensures forall i :: 0 <= i < |nodes| ==> TwoTierNumeric(s.tors, s.servers, nodes[i].id) == numbers[i]
  {
    hide TwoTierNumeric, TwoTierName;
    forall i | 0 <= i < |nodes|
      ensures TwoTierNumeric(s.tors, s.servers, nodes[i].id) == numbers[i]
    {
      TwoTierRoundTrip(s.tors, s.servers, numbers[i]);
    }
  }

  /** Where the index sends the name of a node. */
  lemma IndexOfName(s: Shape, nodes: seq<Node>, numbers: seq<nat>, idToIndex: map<string, nat>, n: nat)
    requires AreNumbered(s, nodes, numbers) && IsIdIndex(nodes, idToIndex) && n in numbers
    ensures var id := TwoTierName(s.tors, s.servers, n); id in idToIndex && numbers[idToIndex[id]] == n
  {
    hide TwoTierNumeric, TwoTierName;
    var i :| 0 <= i < |numbers| && numbers[i] == n;
    assert nodes[i].id in idToIndex;
    NumbersResolve(s, nodes, numbers);
  }

  lemma NamedLinks(s: Shape, nodes: seq<Node>, numbers: seq<nat>, links: seq<NamedLink>, ends: seq<(nat, nat)>,
                   idToIndex: map<string, nat>, u: nat, v: nat)
    requires Depicts(s, nodes, links, numbers, ends) && IsIdIndex(nodes, idToIndex) && u < |nodes| && v < |nodes|
    ensures LinkFrom(idToIndex, links, u, v) <==> TwoTierLink(s.tors, s.aggs, s.servers, numbers[u], numbers[v])
  {
    hide TwoTierName, TwoTierLink;
    assert numbers[u] in numbers && numbers[v] in numbers;
    if LinkFrom(idToIndex, links, u, v) {
      var link :| link in links && link.from in idToIndex && link.to in idToIndex
        && idToIndex[link.from] == u && idToIndex[link.to] == v;
      var i :| 0 <= i < |links| && links[i] == link;
      var (x, y) := ends[i];
      assert (x, y) in ends;
      EndsInRange(s, x, y);
      IndexOfName(s, nodes, numbers, idToIndex, x);
      IndexOfName(s, nodes, numbers, idToIndex, y);
    }
    if TwoTierLink(s.tors, s.aggs, s.servers, numbers[u], numbers[v]) {
      assert (numbers[u], numbers[v]) in ends;
      var i :| 0 <= i < |ends| && ends[i] == (numbers[u], numbers[v]);
      IndexOfName(s, nodes, numbers, idToIndex, numbers[u]);
      IndexOfName(s, nodes, numbers, idToIndex, numbers[v]);
      assert links[i] in links;
    }
  }

  lemma EndsInRange(s: Shape, x: nat, y: nat)
    requires TwoTierLink(s.tors, s.aggs, s.servers, x, y)
    ensures x < s.Total() && y < s.Total()
  {
    if s.IsHost(x) { AboveIsTor(s, x); }
  }

  lemma TwoTierIsSameNetwork(t: DcnTopo, s: Shape, g: Graph, nodes: seq<Node>, numbers: seq<nat>, links: seq<NamedLink>,
                             ends: seq<(nat, nat)>, idToIndex: map<string, nat>)
    requires t.layers == 2 && IsTwoTier(t, s.tors, s.aggs, s.servers) && s.IsGraph(g) && Valid(g)
    requires Depicts(s, nodes, links, numbers, ends) && IsIdIndex(nodes, idToIndex)
    ensures SameNetwork(t, g, nodes, links, idToIndex, numbers)
  {
    hide TwoTierLink, TwoTierName, LinkFrom, IsIdIndex, AreNamed;
    forall i | 0 <= i < |numbers|
      ensures numbers[i] < s.Total()
    {
      assert numbers[i] in numbers;
    }
    AllNumbersOnce(numbers, s.Total());
    forall u: nat, v: nat | u < |nodes| && v < |nodes|
      ensures JoinedByName(idToIndex, links, u, v) <==> numbers[v] in g[numbers[u]]
    {
      NamedLinks(s, nodes, numbers, links, ends, idToIndex, u, v);
      NamedLinks(s, nodes, numbers, links, ends, idToIndex, v, u);
    }
    forall x: nat, y: nat | x < t.total && y in g[x]
      ensures AdjacentKinds(t.KindOf(x), t.KindOf(y))
    {
      TwoTier.NeighbourKinds(s, g, x, y);
    }
  }

  /** Where host 0 of ToR 0, ToR 0 and aggregation switch 0 are in the browser's list. */
  lemma FirstNodes(s: Shape, nodes: seq<Node>, numbers: seq<nat>, idToIndex: map<string, nat>)
    returns (host: nat, tor: nat, agg: nat)
    requires s.tors >= 1 && s.aggs >= 1 && s.servers >= 1
    requires AreNumbered(s, nodes, numbers) && (forall n: nat :: n in numbers <==> n < s.Total()) && IsIdIndex(nodes, idToIndex)
    ensures host < |nodes| && nodes[host].id == LeafHostName(0, 0) && numbers[host] == 0
    ensures tor < |nodes| && nodes[tor].id == "tor" + "-" + Decimal(0) && numbers[tor] == s.Hosts()
    ensures agg < |nodes| && nodes[agg].id == "agg" + "-" + Decimal(0) && numbers[agg] == s.Hosts() + s.tors
  {
    hide TwoTierName, TwoTierNumeric, Decimal, Shape.Hosts, LeafHostName;
    NamesByPart(s, 0, 0, 0);
    IndexOfName(s, nodes, numbers, idToIndex, 0);
    IndexOfName(s, nodes, numbers, idToIndex, s.Hosts());
    IndexOfName(s, nodes, numbers, idToIndex, s.Hosts() + s.tors);
    host := idToIndex[TwoTierName(s.tors, s.servers, 0)];
    tor := idToIndex[TwoTierName(s.tors, s.servers, s.Hosts())];
    agg := idToIndex[TwoTierName(s.tors, s.servers, s.Hosts() + s.tors)];
  }

  lemma FirstJoined(s: Shape, nodes: seq<Node>, numbers: seq<nat>, links: seq<NamedLink>, ends: seq<(nat, nat)>,
                    idToIndex: map<string, nat>)
    returns (host: nat, tor: nat, agg: nat)
    requires s.tors >= 1 && s.aggs >= 1 && s.servers >= 1
    requires Depicts(s, nodes, links, numbers, ends) && IsIdIndex(nodes, idToIndex)
    ensures host < |nodes| && nodes[host].id == LeafHostName(0, 0)
    ensures tor < |nodes| && nodes[tor].id == "tor" + "-" + Decimal(0)
    ensures agg < |nodes| && nodes[agg].id == "agg" + "-" + Decimal(0)
    ensures JoinedByName(idToIndex, links, tor, agg) && JoinedByName(idToIndex, links, host, tor)
  {
    hide TwoTierName, TwoTierLink, IsIdIndex, AreNumbered, AreNamed, Shape.Hosts, Decimal, LeafHostName, NoRepeats;
    host, tor, agg := FirstNodes(s, nodes, numbers, idToIndex);
    FirstLinks(s);
    NumbersMatch(s, nodes, numbers);
    NamedLinks(s, nodes, numbers, links, ends, idToIndex, tor, agg);
    NamedLinks(s, nodes, numbers, links, ends, idToIndex, host, tor);
  }

  lemma NumbersMatch(s: Shape, nodes: seq<Node>, numbers: seq<nat>)
    requires AreNumbered(s, nodes, numbers)
    ensures |nodes| == |numbers|
  {
  }

  /** The links from ToR 0 to aggregation switch 0 and from host 0 of ToR 0 to that ToR are always in the
      browser's table, named as it resolves them with the configured counts. */
  lemma AlwaysShown(tors: nat, servers: nat, s: Shape, nodes: seq<Node>, numbers: seq<nat>, links: seq<NamedLink>,
                    ends: seq<(nat, nat)>, idToIndex: map<string, nat>, adj: Graph, rates: LinkRates, delaySeconds: real,
                    capacities: map<string, nat>)
    requires s.tors >= 1 && s.aggs >= 1 && s.servers >= 1
    requires Depicts(s, nodes, links, numbers, ends) && IsIdIndex(nodes, idToIndex)
    requires IsCapacityTable(nodes, idToIndex, adj, Numbers(nodes, id => TwoTierNumeric(tors, servers, id)), rates, delaySeconds,
                             links, capacities)
    ensures LinkName(tors * servers, tors * servers + tors) in capacities
    ensures LinkName(0, tors * servers) in capacities
  {
    hide IsCapacity, LinkName, TwoTierNumeric, JoinedByName, AreNumbered, AreNamed, IsIdIndex, NoRepeats, TwoTierLink, Decimal, LeafHostName;
    var host, tor, agg := FirstJoined(s, nodes, numbers, links, ends, idToIndex);
    LeafHostNumeric(tors, servers, 0, 0);
    SwitchNumeric(tors, servers, 0);
  }

  lemma FirstLinks(s: Shape)
    requires s.tors >= 1 && s.aggs >= 1 && s.servers >= 1
    ensures TwoTierLink(s.tors, s.aggs, s.servers, s.Hosts(), s.Hosts() + s.tors)
    ensures TwoTierLink(s.tors, s.aggs, s.servers, 0, s.Hosts())
  {
  }

  /** If some count is 0, the browser shows a link that the simulator does not have. */
  lemma CountsDisagree(t: DcnTopo, tors: nat, aggs: nat, servers: nat, g: Graph, rates: LinkRates, delaySeconds: real,
                       hops: map<nat, nat>, capacities: map<string, nat>)
    requires Shape(tors, aggs, servers).IsGraph(g) && (tors == 0 || aggs == 0 || servers == 0)
    requires LinkName(tors * servers, tors * servers + tors) in capacities && LinkName(0, tors * servers) in capacities
    ensures !SameTables(t, g, rates, delaySeconds, hops, capacities)
  {
    hide LinkName, BrowserBytes, Shape.IsGraph;
    MissingLink(tors, aggs, servers, g);
    if SameTables(t, g, rates, delaySeconds, hops, capacities) {
      var x: nat, y: nat :| x < |g| && y in g[x] && LinkName(tors * servers, tors * servers + tors) == LinkName(x, y);
      LinkNameInjective(tors * servers, tors * servers + tors, x, y);
      var p: nat, q: nat :| p < |g| && q in g[p] && LinkName(0, tors * servers) == LinkName(p, q);
      LinkNameInjective(0, tors * servers, p, q);
    }
  }

  lemma MissingLink(tors: nat, aggs: nat, servers: nat, g: Graph)
    requires Shape(tors, aggs, servers).IsGraph(g) && (tors == 0 || aggs == 0 || servers == 0)
    ensures var base := tors * servers;
      !(base < |g| && base + tors in g[base]) || !(0 < |g| && base in g[0])
  {
  }
}
