/**
  Node numbering and link lists of the simulated networks (`DcnTopo` in ns3/scratch/DCN.cc).

  A fat tree of degree k = 2 * half has its hosts numbered first, then the ToR, aggregation and core
  switches. Each node also has a position (`Place`), and the numbering is a bijection between the
  positions and the numbers below `total`. Ids are unbounded here: 32-bit wrap-around is not modelled.
*/
module DcnTopo {
  import opened Lists
  import opened Arith
  import opened Bfs

  datatype NodeKind = Host | Tor | Agg | Core

  datatype DcnTopo = DcnTopo(
    layers: nat, kPods: nat, torCount: nat, aggCount: nat, serversPerTor: nat,
    numHosts: nat, numTor: nat, numAgg: nat, numCore: nat, total: nat)
  {
    function HostId(pod: nat, tor: nat, pos: nat): nat {
      var half := kPods / 2;
      pod * half * half + tor * half + pos
    }

    function TorId(pod: nat, idx: nat): nat {
      numHosts + pod * (kPods / 2) + idx
    }

    function AggId(pod: nat, idx: nat): nat {
      numHosts + numTor + pod * (kPods / 2) + idx
    }

    function CoreId(group: nat, idx: nat): nat {
      numHosts + numTor + numAgg + group * (kPods / 2) + idx
    }

    function KindOf(nodeId: nat): NodeKind {
      if nodeId < numHosts then Host
      else if nodeId < numHosts + numTor then Tor
      else if nodeId < numHosts + numTor + numAgg then Agg
      else Core
    }
  }

  function MakeTopo(layers: nat, kPods: nat, torCount: nat, aggCount: nat, serversPerTor: nat): DcnTopo {
    if layers == 3 then
      var half := kPods / 2;
      Sized(layers, kPods, torCount, aggCount, serversPerTor,
            kPods * kPods * kPods / 4, kPods * kPods / 2, kPods * kPods / 2, half * half)
    else if layers == 2 then
      Sized(layers, kPods, torCount, aggCount, serversPerTor, torCount * serversPerTor, torCount, aggCount, 0)
    else
      Sized(layers, kPods, torCount, aggCount, serversPerTor, serversPerTor, 1, 0, 0)
  }

  function Sized(layers: nat, kPods: nat, torCount: nat, aggCount: nat, serversPerTor: nat,
                 numHosts: nat, numTor: nat, numAgg: nat, numCore: nat): DcnTopo
  {
    DcnTopo(layers, kPods, torCount, aggCount, serversPerTor,
            numHosts, numTor, numAgg, numCore, numHosts + numTor + numAgg + numCore)
  }

  // ---------- the fat tree ----------

  /** Half the degree of a fat tree. */
  type Half = n: nat | n > 0 witness 1

  /** `t` is the three-layer topology of degree 2 * half. */
  predicate IsFatTree(t: DcnTopo, half: Half) {
    t == MakeTopo(3, 2 * half, t.torCount, t.aggCount, t.serversPerTor)
  }

  lemma FatTreeSizes(t: DcnTopo, half: Half)
    requires IsFatTree(t, half)
    ensures t.kPods == 2 * half && t.kPods / 2 == half
    ensures t.numHosts == 2 * half * half * half
    ensures t.numTor == t.numAgg == 2 * half * half && t.numCore == half * half
    ensures t.total == t.numHosts + t.numTor + t.numAgg + t.numCore
  {
  }

  /** The position of a node: pod, then the index in its layer; a host also has a place under its ToR. */
  datatype Place =
    | HostAt(pod: nat, tor: nat, pos: nat)
    | TorAt(pod: nat, idx: nat)
    | AggAt(pod: nat, idx: nat)
    | CoreAt(group: nat, idx: nat)

  predicate InTree(half: Half, c: Place) {
    match c
    case HostAt(p, e, h) => p < 2 * half && e < half && h < half
    case TorAt(p, e) => p < 2 * half && e < half
    case AggAt(p, a) => p < 2 * half && a < half
    case CoreAt(g, j) => g < half && j < half
  }

  function KindAt(c: Place): NodeKind {
    match c
    case HostAt(_, _, _) => Host
    case TorAt(_, _) => Tor
    case AggAt(_, _) => Agg
    case CoreAt(_, _) => Core
  }

  function IdOf(t: DcnTopo, c: Place): nat {
    match c
    case HostAt(p, e, h) => t.HostId(p, e, h)
    case TorAt(p, e) => t.TorId(p, e)
    case AggAt(p, a) => t.AggId(p, a)
    case CoreAt(g, j) => t.CoreId(g, j)
  }

  function PlaceOf(t: DcnTopo, half: Half, n: nat): Place
  {
    match t.KindOf(n)
    case Host => HostAt(First(half, n), Second(half, n), Third(half, n))
    case Tor => TorAt((n - t.numHosts) / half, (n - t.numHosts) % half)
    case Agg => AggAt((n - t.numHosts - t.numTor) / half, (n - t.numHosts - t.numTor) % half)
    case Core =>
      var m := n - t.numHosts - t.numTor - t.numAgg;
      CoreAt(m / half, m % half)
  }

  lemma HostIdIsIndex(t: DcnTopo, half: Half, p: nat, e: nat, h: nat)
    requires t.kPods / 2 == half
    ensures t.HostId(p, e, h) == Index(half, p, e, h)
  {
  }

  lemma HostIdThenPlace(t: DcnTopo, half: Half, c: Place)
    requires IsFatTree(t, half) && InTree(half, c) && c.HostAt?
    ensures IdOf(t, c) < t.numHosts && PlaceOf(t, half, IdOf(t, c)) == c
  {
    hide IsFatTree, Index, First, Second, Third;
    FatTreeSizes(t, half);
    HostIdIsIndex(t, half, c.pod, c.tor, c.pos);
    Digits(half, c.pod, c.tor, c.pos);
  }

  lemma SwitchOffset(half: nat, q: nat, r: nat, n: nat)
    requires q < n && r < half
    ensures var m := q * half + r; m < n * half && m / half == q && m % half == r
  {
    MixBound(q, r, n, half);
    DivMix(q, r, half);
  }

  lemma SwitchIdThenPlace(t: DcnTopo, half: Half, c: Place)
    requires IsFatTree(t, half) && InTree(half, c) && !c.HostAt?
    ensures t.numHosts <= IdOf(t, c) < t.total && t.KindOf(IdOf(t, c)) == KindAt(c) && PlaceOf(t, half, IdOf(t, c)) == c
  {
    hide IsFatTree, First, Second, Third;
    FatTreeSizes(t, half);
    var (q, r) := if c.CoreAt? then (c.group, c.idx) else (c.pod, c.idx);
    SwitchOffset(half, q, r, if c.CoreAt? then half else 2 * half);
    var base := if c.TorAt? then t.numHosts else if c.AggAt? then t.numHosts + t.numTor else t.numHosts + t.numTor + t.numAgg;
    assert IdOf(t, c) == base + (q * half + r);
  }

  /** Every position has an id of its kind's range, from which it is recovered. */
  lemma IdThenPlace(t: DcnTopo, half: Half, c: Place)
    requires IsFatTree(t, half) && InTree(half, c)
    ensures IdOf(t, c) < t.total && t.KindOf(IdOf(t, c)) == KindAt(c) && PlaceOf(t, half, IdOf(t, c)) == c
  {
    hide IsFatTree, InTree, PlaceOf, IdOf;
    FatTreeSizes(t, half);
    if c.HostAt? {
      HostIdThenPlace(t, half, c);
    } else {
      SwitchIdThenPlace(t, half, c);
    }
  }

  /** Every number below `total` is the id of a position. With `IdThenPlace`: a bijection. */
  lemma PlaceThenId(t: DcnTopo, half: Half, n: nat)
    requires IsFatTree(t, half) && n < t.total
    ensures InTree(half, PlaceOf(t, half, n)) && IdOf(t, PlaceOf(t, half, n)) == n
  {
    FatTreeSizes(t, half);
    match t.KindOf(n)
    case Host =>
      FromDigits(half, n);
      HostIdIsIndex(t, half, First(half, n), Second(half, n), Third(half, n));
    case Tor => Unmix(n - t.numHosts, 2 * half, half);
    case Agg => Unmix(n - t.numHosts - t.numTor, 2 * half, half);
    case Core => Unmix(n - t.numHosts - t.numTor - t.numAgg, half, half);
  }

  /** A link is built from `c` up to `d`: host to its ToR, ToR to each aggregation switch of its pod,
      aggregation switch to each core switch of its group. */
  predicate Uplink(c: Place, d: Place) {
    match (c, d)
    case (HostAt(p, e, _), TorAt(q, f)) => p == q && e == f
    case (TorAt(p, _), AggAt(q, _)) => p == q
    case (AggAt(_, a), CoreAt(g, _)) => a == g
    case _ => false
  }

  predicate Adjacent(c: Place, d: Place) {
    Uplink(c, d) || Uplink(d, c)
  }

  // The three runs of links, each indexed by three digits.

  function HostLinkAt(t: DcnTopo, half: Half, i: nat): Link
  {
    var (p, e, h) := (First(half, i), Second(half, i), Third(half, i));
    Link(t.HostId(p, e, h), t.TorId(p, e))
  }

  function TorLinkAt(t: DcnTopo, half: Half, i: nat): Link
  {
    var (p, e, a) := (First(half, i), Second(half, i), Third(half, i));
    Link(t.TorId(p, e), t.AggId(p, a))
  }

  function AggLinkAt(t: DcnTopo, half: Half, i: nat): Link
  {
    var (p, a, j) := (First(half, i), Second(half, i), Third(half, i));
    Link(t.AggId(p, a), t.CoreId(a, j))
  }

  // ---------- the link builder ----------

  method HostLinks(t: DcnTopo, ghost half: Half) returns (links: seq<Link>)
    requires IsFatTree(t, half)
    ensures |links| == 2 * half * half * half
    ensures forall i :: 0 <= i < |links| ==> links[i] == HostLinkAt(t, half, i)
  {
    hide Index, First, Second, Third, IsFatTree, DcnTopo.HostId, DcnTopo.TorId;
    FatTreeSizes(t, half);
    links := [];
    var p := 0;
    Carry(half, 0, 0);
    while p < t.kPods
      invariant p <= 2 * half && |links| == Index(half, p, 0, 0)
      invariant forall i :: 0 <= i < |links| ==> links[i] == HostLinkAt(t, half, i)
    {
      var e := 0;
      while e < t.kPods / 2
        invariant e <= half && |links| == Index(half, p, e, 0)
        invariant forall i :: 0 <= i < |links| ==> links[i] == HostLinkAt(t, half, i)
      {
        var h := 0;
        while h < t.kPods / 2
          invariant h <= half && |links| == Index(half, p, e, h)
          invariant forall i :: 0 <= i < |links| ==> links[i] == HostLinkAt(t, half, i)
        {
          Digits(half, p, e, h);
          links := links + [Link(t.HostId(p, e, h), t.TorId(p, e))];
          h := h + 1;
        }
        Carry(half, p, e);
        e := e + 1;
      }
      Carry(half, p, 0);
      p := p + 1;
    }
  }

  method TorLinks(t: DcnTopo, ghost half: Half) returns (links: seq<Link>)
    requires IsFatTree(t, half)
    ensures |links| == 2 * half * half * half
    ensures forall i :: 0 <= i < |links| ==> links[i] == TorLinkAt(t, half, i)
  {
    hide Index, First, Second, Third, IsFatTree, DcnTopo.TorId, DcnTopo.AggId;
    FatTreeSizes(t, half);
    links := [];
    var p := 0;
    Carry(half, 0, 0);
    while p < t.kPods
      invariant p <= 2 * half && |links| == Index(half, p, 0, 0)
      invariant forall i :: 0 <= i < |links| ==> links[i] == TorLinkAt(t, half, i)
    {
      var e := 0;
      while e < t.kPods / 2
        invariant e <= half && |links| == Index(half, p, e, 0)
        invariant forall i :: 0 <= i < |links| ==> links[i] == TorLinkAt(t, half, i)
      {
        var a := 0;
        while a < t.kPods / 2
          invariant a <= half && |links| == Index(half, p, e, a)
          invariant forall i :: 0 <= i < |links| ==> links[i] == TorLinkAt(t, half, i)
        {
          Digits(half, p, e, a);
          links := links + [Link(t.TorId(p, e), t.AggId(p, a))];
          a := a + 1;
        }
        Carry(half, p, e);
        e := e + 1;
      }
      Carry(half, p, 0);
      p := p + 1;
    }
  }

  method AggLinks(t: DcnTopo, ghost half: Half) returns (links: seq<Link>)
    requires IsFatTree(t, half)
    ensures |links| == 2 * half * half * half
    ensures forall i :: 0 <= i < |links| ==> links[i] == AggLinkAt(t, half, i)
  {
    hide Index, First, Second, Third, IsFatTree, DcnTopo.AggId, DcnTopo.CoreId;
    FatTreeSizes(t, half);
    links := [];
    var p := 0;
    Carry(half, 0, 0);
    while p < t.kPods
      invariant p <= 2 * half && |links| == Index(half, p, 0, 0)
      invariant forall i :: 0 <= i < |links| ==> links[i] == AggLinkAt(t, half, i)
    {
      var a := 0;
      while a < t.kPods / 2
        invariant a <= half && |links| == Index(half, p, a, 0)
        invariant forall i :: 0 <= i < |links| ==> links[i] == AggLinkAt(t, half, i)
      {
        var j := 0;
        while j < t.kPods / 2
          invariant j <= half && |links| == Index(half, p, a, j)
          invariant forall i :: 0 <= i < |links| ==> links[i] == AggLinkAt(t, half, i)
        {
          Digits(half, p, a, j);
          links := links + [Link(t.AggId(p, a), t.CoreId(a, j))];
          j := j + 1;
        }
        Carry(half, p, a);
        a := a + 1;
      }
      Carry(half, p, 0);
      p := p + 1;
    }
  }

  /** The three runs one after the other. */
  ghost predicate AreFatLinks(t: DcnTopo, half: Half, links: seq<Link>)
  {
    var run := 2 * half * half * half;
    && |links| == 3 * run
    && (forall i :: 0 <= i < run ==> links[i] == HostLinkAt(t, half, i))
    && (forall i :: 0 <= i < run ==> links[run + i] == TorLinkAt(t, half, i))
    && (forall i :: 0 <= i < run ==> links[2 * run + i] == AggLinkAt(t, half, i))
  }

  // ---------- one or two tiers of switches ----------

  /** `t` has `tors` ToR switches with `servers` hosts each, all joined to all of `aggs` aggregation
      switches. One tier is the case of a single ToR and no aggregation switch. */
  predicate IsTwoTier(t: DcnTopo, tors: nat, aggs: nat, servers: nat) {
    if t.layers == 2 then t == MakeTopo(2, t.kPods, tors, aggs, servers)
    else t.layers != 3 && tors == 1 && aggs == 0 && t == MakeTopo(t.layers, t.kPods, t.torCount, t.aggCount, servers)
  }

  predicate TwoTierLink(tors: nat, aggs: nat, servers: nat, u: nat, v: nat) {
    var hosts := tors * servers;
    || (servers > 0 && u < hosts && v == hosts + u / servers)
    || (hosts <= u < hosts + tors && hosts + tors <= v < hosts + tors + aggs)
  }

  /** The links that ToR `tor` adds: one from each of its hosts, one to each aggregation switch. */
  function TorBlock(tors: nat, aggs: nat, servers: nat, tor: nat): seq<Link> {
    var hosts := tors * servers;
    seq(servers, h requires h >= 0 => Link(tor * servers + h, hosts + tor))
    + seq(aggs, a requires a >= 0 => Link(hosts + tor, hosts + tors + a))
  }

  /** The links of the first `n` ToRs, ToR by ToR. */
  function TorBlocks(tors: nat, aggs: nat, servers: nat, n: nat): seq<Link> {
    if n == 0 then [] else TorBlocks(tors, aggs, servers, n - 1) + TorBlock(tors, aggs, servers, n - 1)
  }

  ghost predicate AreTwoTierLinks(tors: nat, aggs: nat, servers: nat, links: seq<Link>) {
    links == TorBlocks(tors, aggs, servers, tors)
  }

  method BuildTwoTierLinks(t: DcnTopo) returns (links: seq<Link>)
    requires t.layers == 2 && IsTwoTier(t, t.torCount, t.aggCount, t.serversPerTor)
    ensures AreTwoTierLinks(t.torCount, t.aggCount, t.serversPerTor, links)
  {
    ghost var (tors, aggs, servers) := (t.torCount, t.aggCount, t.serversPerTor);
    assert t.numHosts == tors * servers && t.numTor == tors;
    hide IsTwoTier, TorBlock;
    links := [];
    var tor := 0;
    while tor < t.torCount
      invariant tor <= t.torCount && links == TorBlocks(tors, aggs, servers, tor)
    {
      ghost var before := links;
      ghost var block := TorBlock(tors, aggs, servers, tor);
      BlockEntries(tors, aggs, servers, tor);
      var h := 0;
      while h < t.serversPerTor
        invariant h <= servers && links == before + block[..h]
      {
        var host := tor * t.serversPerTor + h;
        assert block[..h + 1] == block[..h] + [Link(host, t.numHosts + tor)];
        links := links + [Link(host, t.numHosts + tor)];
        h := h + 1;
      }
      var a := 0;
      while a < t.aggCount
        invariant a <= aggs && links == before + block[..servers + a]
      {
        assert block[..servers + a + 1] == block[..servers + a] + [Link(t.numHosts + tor, t.numHosts + t.numTor + a)];
        links := links + [Link(t.numHosts + tor, t.numHosts + t.numTor + a)];
        a := a + 1;
      }
      assert block[..servers + aggs] == block;
      tor := tor + 1;
    }
  }

  lemma BlockEntries(tors: nat, aggs: nat, servers: nat, tor: nat)
    ensures var block := TorBlock(tors, aggs, servers, tor);
      && |block| == servers + aggs
      && (forall h :: 0 <= h < servers ==> block[h] == Link(tor * servers + h, tors * servers + tor))
      && (forall i :: servers <= i < servers + aggs ==> block[i] == Link(tors * servers + tor, tors * servers + tors + (i - servers)))
  {
  }

  /** The ToR switch a link belongs to. */
  function TorOf(tors: nat, servers: nat, u: nat): int
    requires servers > 0 || tors * servers <= u
  {
    if u < tors * servers then u / servers else u - tors * servers
  }

  lemma InTorBlock(tors: nat, aggs: nat, servers: nat, tor: nat, link: Link)
    requires tor < tors
    ensures link in TorBlock(tors, aggs, servers, tor) <==>
      TwoTierLink(tors, aggs, servers, link.from, link.to) && TorOf(tors, servers, link.from) == tor
  {
    var block := TorBlock(tors, aggs, servers, tor);
    HostsOfTor(tors, servers, tor, link.from);
    if TwoTierLink(tors, aggs, servers, link.from, link.to) && TorOf(tors, servers, link.from) == tor {
      if link.from < tors * servers {
        assert block[link.from - tor * servers] == link;
      } else {
        assert block[servers + (link.to - tors * servers - tors)] == link;
      }
    }
  }

  lemma {:induction false} InTorBlocks(tors: nat, aggs: nat, servers: nat, n: nat, link: Link)
    requires n <= tors
    ensures link in TorBlocks(tors, aggs, servers, n) <==>
      TwoTierLink(tors, aggs, servers, link.from, link.to) && TorOf(tors, servers, link.from) < n
    decreases n
  {
    hide TorBlock, TwoTierLink;
    if n == 0 {
      if TwoTierLink(tors, aggs, servers, link.from, link.to) { TorNotNegative(tors, aggs, servers, link); }
    } else {
      InTorBlocks(tors, aggs, servers, n - 1, link);
      InTorBlock(tors, aggs, servers, n - 1, link);
    }
  }

  lemma TorNotNegative(tors: nat, aggs: nat, servers: nat, link: Link)
    requires TwoTierLink(tors, aggs, servers, link.from, link.to)
    ensures 0 <= TorOf(tors, servers, link.from) < tors
  {
    if link.from < tors * servers { Unmix(link.from, tors, servers); }
  }

  /** The links join exactly: each host and the ToR of its block, each ToR and each aggregation switch. */
  lemma TwoTierMembers(tors: nat, aggs: nat, servers: nat, links: seq<Link>)
    requires AreTwoTierLinks(tors, aggs, servers, links)
    ensures forall link :: link in links <==> TwoTierLink(tors, aggs, servers, link.from, link.to)
  {
    hide TorBlocks, TwoTierLink, TorOf;
    forall link: Link
      ensures link in links <==> TwoTierLink(tors, aggs, servers, link.from, link.to)
    {
      InTorBlocks(tors, aggs, servers, tors, link);
      if TwoTierLink(tors, aggs, servers, link.from, link.to) { TorNotNegative(tors, aggs, servers, link); }
    }
  }

  /** No link is listed twice, in either direction. */
  lemma {:induction false} TwoTierLinksDistinct(tors: nat, aggs: nat, servers: nat, n: nat)
    requires n <= tors
    ensures NoRepeats(TorBlocks(tors, aggs, servers, n))
    ensures forall link :: link in TorBlocks(tors, aggs, servers, n) ==> link.from < link.to
    decreases n
  {
    hide TwoTierLink, TorOf, TorBlock;
    if n > 0 {
      var (a, b) := (TorBlocks(tors, aggs, servers, n - 1), TorBlock(tors, aggs, servers, n - 1));
      TwoTierLinksDistinct(tors, aggs, servers, n - 1);
      BlockDistinct(tors, aggs, servers, n - 1);
      forall link: Link
        ensures link !in a || link !in b
      {
        InTorBlocks(tors, aggs, servers, n - 1, link);
        InTorBlock(tors, aggs, servers, n - 1, link);
      }
      assert TorBlocks(tors, aggs, servers, n) == a + b;
      forall i, j | 0 <= i < j < |a + b|
        ensures (a + b)[i] != (a + b)[j]
      {
        assert (a + b)[i] in if i < |a| then a else b;
        assert (a + b)[j] in if j < |a| then a else b;
      }
    }
  }

  lemma BlockDistinct(tors: nat, aggs: nat, servers: nat, tor: nat)
    requires tor < tors
    ensures NoRepeats(TorBlock(tors, aggs, servers, tor))
    ensures forall link :: link in TorBlock(tors, aggs, servers, tor) ==> link.from < link.to
  {
    MulMono(tor + 1, tors, servers);
    assert (tor + 1) * servers == tor * servers + servers;
  }

  /** The hosts of ToR `tor` are a block of ids. */
  lemma HostsOfTor(tors: nat, servers: nat, tor: nat, u: nat)
    requires tor < tors
    ensures tor * servers <= u < tor * servers + servers <==> servers > 0 && u < tors * servers && u / servers == tor
  {
    MulMono(tor + 1, tors, servers);
    assert (tor + 1) * servers == tor * servers + servers;
    if tor * servers <= u < tor * servers + servers {
      DivMix(tor, u - tor * servers, servers);
    }
    if servers > 0 && u < tors * servers && u / servers == tor {
      Unmix(u, tors, servers);
    }
  }

  /** With one ToR and no aggregation switch, every host hangs off that ToR. */
  lemma SingleTorLinks(servers: nat)
    ensures TorBlocks(1, 0, servers, 1) == seq(servers, i requires i >= 0 => Link(i, servers))
  {
  }

  // ---------- all topologies ----------

  method BuildLinks(t: DcnTopo) returns (links: seq<Link>)
    requires t.layers == 3 ==> t.kPods >= 2 && IsFatTree(t, t.kPods / 2)
    requires t.layers == 2 ==> IsTwoTier(t, t.torCount, t.aggCount, t.serversPerTor)
    requires t.layers != 2 && t.layers != 3 ==> IsTwoTier(t, 1, 0, t.serversPerTor)
    ensures t.layers == 3 ==> AreFatLinks(t, t.kPods / 2, links)
    ensures t.layers == 2 ==> AreTwoTierLinks(t.torCount, t.aggCount, t.serversPerTor, links)
    ensures t.layers != 2 && t.layers != 3 ==> AreTwoTierLinks(1, 0, t.serversPerTor, links)
  {
    hide HostLinkAt, TorLinkAt, AggLinkAt, DcnTopo.CoreId, DcnTopo.HostId, DcnTopo.TorId, DcnTopo.AggId, TwoTierLink;
    if t.layers == 3 {
      var toTors := HostLinks(t, t.kPods / 2);
      var toAggs := TorLinks(t, t.kPods / 2);
      var toCores := AggLinks(t, t.kPods / 2);
      links := toTors + toAggs + toCores;
    } else if t.layers == 2 {
      links := BuildTwoTierLinks(t);
    } else {
      links := [];
      var h := 0;
      while h < t.numHosts
        invariant h <= t.numHosts && links == seq(h, i requires i >= 0 => Link(i, t.numHosts))
      {
        links := links + [Link(h, t.numHosts)];
        h := h + 1;
      }
      SingleTorLinks(t.serversPerTor);
    }
  }
}
