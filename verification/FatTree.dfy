/**
  The fat tree of every even degree k = 2 * half: who is joined to whom, how regular it is, how far
  apart its nodes are, and so the closed form of the simulator's hop tables.
*/
module FatTree {
  import opened Lists
  import opened Arith
  import opened Graphs
  import opened Bfs
  import opened HopTable
  import opened DcnTopo

  // ---------- the links, by position ----------

  /** `u` and `v` are ids of neighbouring positions. */
  ghost predicate Neighbours(t: DcnTopo, half: Half, u: nat, v: nat)
  {
    u < t.total && v < t.total && Adjacent(PlaceOf(t, half, u), PlaceOf(t, half, v))
  }

  /** The positions at the two ends of link `i`. */
  function EndsAt(half: Half, i: nat): (Place, Place)
  {
    var run := 2 * half * half * half;
    if i < run then
      (HostAt(First(half, i), Second(half, i), Third(half, i)), TorAt(First(half, i), Second(half, i)))
    else if i < 2 * run then
      (TorAt(First(half, i - run), Second(half, i - run)), AggAt(First(half, i - run), Third(half, i - run)))
    else
      var j := i - 2 * run;
      (AggAt(First(half, j), Second(half, j)), CoreAt(Second(half, j), Third(half, j)))
  }

  lemma LinkEnds(t: DcnTopo, half: Half, links: seq<Link>, i: nat)
    requires IsFatTree(t, half) && AreFatLinks(t, half, links) && i < |links|
    ensures var (c, d) := EndsAt(half, i);
            InTree(half, c) && InTree(half, d) && Uplink(c, d) && links[i] == Link(IdOf(t, c), IdOf(t, d))
  {
    hide IsFatTree, First, Second, Third, Index, DcnTopo.HostId, DcnTopo.TorId, DcnTopo.AggId, DcnTopo.CoreId;
    var run := 2 * half * half * half;
    FromDigits(half, if i < run then i else if i < 2 * run then i - run else i - 2 * run);
    if run <= i < 2 * run {
      assert links[run + (i - run)] == TorLinkAt(t, half, i - run);
    } else if 2 * run <= i {
      assert links[2 * run + (i - 2 * run)] == AggLinkAt(t, half, i - 2 * run);
    }
  }

  lemma LinkOfEnds(t: DcnTopo, half: Half, links: seq<Link>, c: Place, d: Place) returns (i: nat)
    requires IsFatTree(t, half) && AreFatLinks(t, half, links)
    requires InTree(half, c) && InTree(half, d) && Uplink(c, d)
    ensures i < |links| && EndsAt(half, i) == (c, d) && links[i] == Link(IdOf(t, c), IdOf(t, d))
  {
    hide IsFatTree, First, Second, Third, Index, DcnTopo.HostId, DcnTopo.TorId, DcnTopo.AggId, DcnTopo.CoreId;
    var run := 2 * half * half * half;
    match c
    case HostAt(p, e, h) =>
      i := Index(half, p, e, h);
      Digits(half, p, e, h);
    case TorAt(p, e) =>
      i := run + Index(half, p, e, d.idx);
      Digits(half, p, e, d.idx);
      assert links[run + Index(half, p, e, d.idx)] == TorLinkAt(t, half, Index(half, p, e, d.idx));
    case AggAt(p, a) =>
      i := 2 * run + Index(half, p, a, d.idx);
      Digits(half, p, a, d.idx);
      assert links[2 * run + Index(half, p, a, d.idx)] == AggLinkAt(t, half, Index(half, p, a, d.idx));
  }

  /** The link list joins exactly the neighbouring positions. */
  lemma JoinedIffNeighbours(t: DcnTopo, half: Half, links: seq<Link>, u: nat, v: nat)
    requires IsFatTree(t, half) && AreFatLinks(t, half, links)
    ensures Joined(links, u, v) <==> Neighbours(t, half, u, v)
  {
    hide IsFatTree, AreFatLinks, InTree, Uplink;
    if Link(u, v) in links {
      LinkIsNeighbourly(t, half, links, u, v);
    }
    if Link(v, u) in links {
      LinkIsNeighbourly(t, half, links, v, u);
    }
    if Neighbours(t, half, u, v) {
      var (c, d) := (PlaceOf(t, half, u), PlaceOf(t, half, v));
      PlaceThenId(t, half, u);
      PlaceThenId(t, half, v);
      if Uplink(c, d) {
        var i := LinkOfEnds(t, half, links, c, d);
      } else {
        var i := LinkOfEnds(t, half, links, d, c);
      }
    }
  }

  lemma LinkIsNeighbourly(t: DcnTopo, half: Half, links: seq<Link>, u: nat, v: nat)
    requires IsFatTree(t, half) && AreFatLinks(t, half, links) && Link(u, v) in links
    ensures u < t.total && v < t.total && Uplink(PlaceOf(t, half, u), PlaceOf(t, half, v))
  {
    hide IsFatTree, AreFatLinks, InTree, Uplink, IdOf, PlaceOf;
    var i :| 0 <= i < |links| && links[i] == Link(u, v);
    LinkEnds(t, half, links, i);
    var (c, d) := EndsAt(half, i);
    IdThenPlace(t, half, c);
    IdThenPlace(t, half, d);
  }

  /** No link is listed twice, in either direction. */
  lemma LinksDistinct(t: DcnTopo, half: Half, links: seq<Link>, i: nat, j: nat)
    requires IsFatTree(t, half) && AreFatLinks(t, half, links) && i < |links| && j < |links|
    requires links[i] == links[j] || links[i] == Link(links[j].to, links[j].from)
    ensures i == j
  {
    hide IsFatTree, InTree, IdOf, PlaceOf, First, Second, Third, Index;
    LinkEnds(t, half, links, i);
    LinkEnds(t, half, links, j);
    var (c, d) := EndsAt(half, i);
    var (x, y) := EndsAt(half, j);
    IdThenPlace(t, half, c);
    IdThenPlace(t, half, d);
    IdThenPlace(t, half, x);
    IdThenPlace(t, half, y);
    assert c == x && d == y;
    EndsInjective(half, i, j);
  }

  lemma EndsInjective(half: Half, i: nat, j: nat)
    requires i < 3 * (2 * half * half * half) && j < 3 * (2 * half * half * half)
    requires EndsAt(half, i) == EndsAt(half, j)
    ensures i == j
  {
    hide First, Second, Third, Index;
    var run := 2 * half * half * half;
    FromDigits(half, if i < run then i else if i < 2 * run then i - run else i - 2 * run);
    FromDigits(half, if j < run then j else if j < 2 * run then j - run else j - 2 * run);
  }

  // ---------- regularity ----------

  /** The positions next to `c`, each once. */
  function PlacesNextTo(half: Half, c: Place): seq<Place> {
    match c
    case HostAt(p, e, _) => [TorAt(p, e)]
    case TorAt(p, e) => seq(half, h requires h >= 0 => HostAt(p, e, h)) + seq(half, a requires a >= 0 => AggAt(p, a))
    case AggAt(p, a) => seq(half, e requires e >= 0 => TorAt(p, e)) + seq(half, j requires j >= 0 => CoreAt(a, j))
    case CoreAt(g, _) => seq(2 * half, p requires p >= 0 => AggAt(p, g))
  }

  lemma PlacesListed(half: Half, c: Place, d: Place)
    requires InTree(half, c)
    ensures |PlacesNextTo(half, c)| == (if c.HostAt? then 1 else 2 * half) && NoRepeats(PlacesNextTo(half, c))
    ensures d in PlacesNextTo(half, c) <==> InTree(half, d) && Adjacent(c, d)
  {
    var next := PlacesNextTo(half, c);
    if InTree(half, d) && Adjacent(c, d) {
      match (c, d)
      case (HostAt(_, _, _), TorAt(_, _)) => assert next[0] == d;
      case (TorAt(_, _), HostAt(_, _, h)) => assert next[h] == d;
      case (TorAt(_, _), AggAt(_, a)) => assert next[half + a] == d;
      case (AggAt(_, _), TorAt(_, e)) => assert next[e] == d;
      case (AggAt(_, _), CoreAt(_, j)) => assert next[half + j] == d;
      case (CoreAt(_, _), AggAt(p, _)) => assert next[p] == d;
    }
  }

  lemma LinksAreSimple(t: DcnTopo, half: Half, links: seq<Link>)
    requires IsFatTree(t, half) && AreFatLinks(t, half, links)
    ensures IsSimple(links)
  {
    hide IsFatTree, AreFatLinks, IdOf, PlaceOf, EndsAt, InTree;
    forall i | 0 <= i < |links|
      ensures links[i].from != links[i].to
    {
      LinkEnds(t, half, links, i);
      IdThenPlace(t, half, EndsAt(half, i).0);
      IdThenPlace(t, half, EndsAt(half, i).1);
    }
    forall i, j | 0 <= i < j < |links|
      ensures links[i] != links[j] && links[i] != Link(links[j].to, links[j].from)
    {
      if links[i] == links[j] || links[i] == Link(links[j].to, links[j].from) { LinksDistinct(t, half, links, i, j); }
    }
  }

  /** The ids of a list of different places are different. */
  lemma IdsOf(t: DcnTopo, half: Half, places: seq<Place>) returns (ids: seq<nat>)
    requires IsFatTree(t, half) && NoRepeats(places) && forall c :: c in places ==> InTree(half, c)
    ensures |ids| == |places| && NoRepeats(ids) && forall i :: 0 <= i < |ids| ==> ids[i] == IdOf(t, places[i])
  {
    hide IsFatTree, InTree, IdOf, PlaceOf;
    ids := seq(|places|, i requires 0 <= i < |places| => IdOf(t, places[i]));
    forall i, j | 0 <= i < j < |ids|
      ensures ids[i] != ids[j]
    {
      IdThenPlace(t, half, places[i]);
      IdThenPlace(t, half, places[j]);
    }
  }

  /** In the neighbour lists of the simulator's links: a host has one neighbour and every switch k, all
      different; they are the nodes next to it in the tree. A core meets each pod in exactly one node. */
  lemma Regular(t: DcnTopo, half: Half, links: seq<Link>, c: Place)
    requires IsFatTree(t, half) && AreFatLinks(t, half, links) && InTree(half, c)
    ensures IdOf(t, c) < t.total
    ensures var list := Adjacency(t.total, links)[IdOf(t, c)];
      && NoRepeats(list) && |list| == (if c.HostAt? then 1 else 2 * half)
      && (forall v: nat :: v in list <==> v < t.total && Adjacent(c, PlaceOf(t, half, v)))
      && (c.CoreAt? ==> forall p :: 0 <= p < 2 * half ==>
            t.AggId(p, c.group) in list
            && forall v :: v in list && PlaceOf(t, half, v) == AggAt(p, c.group) ==> v == t.AggId(p, c.group))
      && (c.CoreAt? ==> forall v :: v in list ==> PlaceOf(t, half, v).AggAt? && PlaceOf(t, half, v).idx == c.group)
  {
    hide IsFatTree, AreFatLinks, PlaceOf, Adjacency, PlacesNextTo, DcnTopo.AggId, InTree;
    IdThenPlace(t, half, c);
    var u := IdOf(t, c);
    var list := Adjacency(t.total, links)[u];
    LinksAreSimple(t, half, links);
    NeighboursOnce(t.total, links, u);
    AdjacencyIsFat(t, half, links, Adjacency(t.total, links));
    NextIds(t, half, c, list);
    if c.CoreAt? {
      forall p | 0 <= p < 2 * half
        ensures t.AggId(p, c.group) in list
        ensures forall v :: v in list && PlaceOf(t, half, v) == AggAt(p, c.group) ==> v == t.AggId(p, c.group)
      {
        CoreMeets(t, half, c, p);
        forall v | v in list && PlaceOf(t, half, v) == AggAt(p, c.group)
          ensures v == t.AggId(p, c.group)
        {
          PlaceThenId(t, half, v);
        }
      }
    }
  }

  lemma CoreMeets(t: DcnTopo, half: Half, c: Place, p: nat)
    requires IsFatTree(t, half) && InTree(half, c) && c.CoreAt? && p < 2 * half
    ensures t.AggId(p, c.group) == IdOf(t, AggAt(p, c.group)) < t.total
    ensures PlaceOf(t, half, t.AggId(p, c.group)) == AggAt(p, c.group)
  {
    IdThenPlace(t, half, AggAt(p, c.group));
  }

  /** A list of exactly the neighbours of `c`, each once, is as long as the list of places. */
  lemma NextIds(t: DcnTopo, half: Half, c: Place, list: seq<nat>)
    requires IsFatTree(t, half) && InTree(half, c) && NoRepeats(list)
    requires forall v: nat :: v in list <==> v < t.total && Adjacent(c, PlaceOf(t, half, v))
    ensures |list| == if c.HostAt? then 1 else 2 * half
  {
    hide IsFatTree, InTree, IdOf, PlaceOf, Adjacent, PlacesNextTo;
    var places := PlacesNextTo(half, c);
    forall d
      ensures d in places <==> InTree(half, d) && Adjacent(c, d)
      ensures |places| == (if c.HostAt? then 1 else 2 * half) && NoRepeats(places)
    {
      PlacesListed(half, c, d);
    }
    var ids := IdsOf(t, half, places);
    forall v: nat
      ensures v in ids <==> v in list
    {
      if v in ids {
        var i :| 0 <= i < |ids| && ids[i] == v;
        assert places[i] in places;
        IdThenPlace(t, half, places[i]);
      }
      if v in list {
        PlaceThenId(t, half, v);
        var d := PlaceOf(t, half, v);
        assert d in places;
        var i :| 0 <= i < |places| && places[i] == d;
        assert ids[i] == v;
      }
    }
    SameLength(ids, list);
  }

  // ---------- distances ----------

  /** How far the node at `c` is from the host at `d`. */
  function HopsToHost(c: Place, d: Place): nat
    requires d.HostAt?
  {
    match c
    case HostAt(p, e, h) =>
      if c == d then 0 else if p == d.pod && e == d.tor then 2 else if p == d.pod then 4 else 6
    case TorAt(p, e) => if p == d.pod && e == d.tor then 1 else if p == d.pod then 3 else 5
    case AggAt(p, a) => if p == d.pod then 2 else 4
    case CoreAt(_, _) => 3
  }

  /** From every place but the host itself, a neighbour that is one hop nearer. */
  function Nearer(c: Place, d: Place): Place
    requires d.HostAt? && c != d
  {
    match c
    case HostAt(p, e, h) => TorAt(p, e)
    case TorAt(p, e) => if p == d.pod && e == d.tor then d else AggAt(p, 0)
    case AggAt(p, a) => if p == d.pod then TorAt(p, d.tor) else CoreAt(a, 0)
    case CoreAt(g, j) => AggAt(d.pod, g)
  }

  lemma NearerIsNearer(half: Half, c: Place, d: Place)
    requires InTree(half, c) && InTree(half, d) && d.HostAt? && c != d
    ensures InTree(half, Nearer(c, d)) && Adjacent(Nearer(c, d), c)
    ensures HopsToHost(Nearer(c, d), d) == HopsToHost(c, d) - 1
  {
  }

  ghost predicate IsFatGraph(t: DcnTopo, half: Half, g: Graph)
  {
    |g| == t.total && forall u: nat, v: nat :: u < t.total ==> (v in g[u] <==> Neighbours(t, half, u, v))
  }

  lemma AdjacencyIsFat(t: DcnTopo, half: Half, links: seq<Link>, g: Graph)
    requires IsFatTree(t, half) && AreFatLinks(t, half, links) && IsAdjacency(t.total, links, g)
    ensures IsFatGraph(t, half, g) && Valid(g) && Symmetric(g)
  {
    hide IsFatTree, AreFatLinks, Adjacent;
    AdjacencyIsUndirected(t.total, links, g);
    forall u: nat, v: nat | u < t.total
      ensures v in g[u] <==> Neighbours(t, half, u, v)
    {
      JoinedIffNeighbours(t, half, links, u, v);
    }
  }

  /** Breadth-first levels around a host are `HopsToHost`. */
  lemma HostDistances(t: DcnTopo, half: Half, g: Graph, x: nat)
    requires IsFatTree(t, half) && IsFatGraph(t, half, g) && Valid(g) && x < t.numHosts
    ensures forall v: nat :: v < t.total ==>
      PlaceOf(t, half, x).HostAt? && Dist(g, x, v) == HopsToHost(PlaceOf(t, half, v), PlaceOf(t, half, x))
  {
    hide IsFatTree, Adjacent, InTree;
    FatTreeSizes(t, half);
    var d := PlaceOf(t, half, x);
    PlaceThenId(t, half, x);
    var level := seq(|g|, v requires 0 <= v < |g| => HopsToHost(PlaceOf(t, half, v), d) as int);
    hide HopsToHost, PlaceOf, IdOf, IsFatTree;
    ZeroAtHost(t, half, x, level);
    HopsRise(t, half, g, x, level);
    HopsFromBelow(t, half, g, x, level);
    LevelsAreDistances(g, x, level);
  }

  /** The table of `HopsToHost(_, d)` for the host `d` with id `x`. */
  ghost predicate IsHopRow(t: DcnTopo, half: Half, x: nat, level: seq<int>)
    requires PlaceOf(t, half, x).HostAt?
  {
    |level| == t.total && forall v: nat :: v < |level| ==> level[v] == HopsToHost(PlaceOf(t, half, v), PlaceOf(t, half, x))
  }

  lemma ZeroAtHost(t: DcnTopo, half: Half, x: nat, level: seq<int>)
    requires IsFatTree(t, half) && x < t.numHosts <= t.total && PlaceOf(t, half, x).HostAt? && IsHopRow(t, half, x, level)
    ensures ZeroAtSource(x, level)
  {
    hide PlaceOf, IdOf, IsFatTree;
    PlaceThenId(t, half, x);
    forall v: nat | v < |level|
      ensures level[v] >= -1 && (level[v] == 0 <==> v == x)
    {
      PlaceThenId(t, half, v);
    }
  }

  lemma HopsRise(t: DcnTopo, half: Half, g: Graph, x: nat, level: seq<int>)
    requires IsFatGraph(t, half, g) && PlaceOf(t, half, x).HostAt? && IsHopRow(t, half, x, level)
    ensures RisesByOne(g, level)
  {
    hide PlaceOf, HopsToHost;
    forall u: nat, v: nat | u < |g| && v in g[u] && level[u] >= 0
      ensures v < |g| && 0 <= level[v] <= level[u] + 1
    {
      NeighboursDifferByOne(PlaceOf(t, half, u), PlaceOf(t, half, v), PlaceOf(t, half, x));
    }
  }

  lemma HopsFromBelow(t: DcnTopo, half: Half, g: Graph, x: nat, level: seq<int>)
    requires IsFatTree(t, half) && IsFatGraph(t, half, g) && x < t.numHosts <= t.total
    requires PlaceOf(t, half, x).HostAt? && IsHopRow(t, half, x, level)
    ensures FromBelow(g, level)
  {
    hide PlaceOf, IdOf, IsFatTree, HopsToHost, Nearer;
    forall v: nat | v < |g| && level[v] > 0
      ensures HasLower(g, level, v)
    {
      LowerNeighbour(t, half, g, x, v, level);
    }
  }

  lemma LowerNeighbour(t: DcnTopo, half: Half, g: Graph, x: nat, v: nat, level: seq<int>)
    requires IsFatTree(t, half) && IsFatGraph(t, half, g) && x < t.numHosts <= t.total && v < t.total
    requires PlaceOf(t, half, x).HostAt? && IsHopRow(t, half, x, level) && level[v] > 0
    ensures HasLower(g, level, v)
  {
    hide PlaceOf, IdOf, IsFatTree, Nearer;
    var (c, d) := (PlaceOf(t, half, v), PlaceOf(t, half, x));
    PlaceThenId(t, half, x);
    PlaceThenId(t, half, v);
    NearerIsNearer(half, c, d);
    IdThenPlace(t, half, Nearer(c, d));
    var u := IdOf(t, Nearer(c, d));
    assert v in g[u] && level[u] == level[v] - 1;
  }

  lemma NeighboursDifferByOne(c: Place, c': Place, d: Place)
    requires Adjacent(c, c') && d.HostAt?
    ensures HopsToHost(c', d) <= HopsToHost(c, d) + 1
  {
  }

  // ---------- the hop tables in closed form ----------

  /** The table entry of the link from `c` to its neighbour `d`: 6, 5, 4 on the way up, 3, 2, 1 on the way down. */
  function ClosedForm(c: Place, d: Place): nat {
    match c
    case HostAt(_, _, _) => 6
    case TorAt(_, _) => if d.AggAt? then 5 else 1
    case AggAt(_, _) => if d.CoreAt? then 4 else 2
    case CoreAt(_, _) => 3
  }

  /** A host that a shortest walk through the link `c -> d` serves at the distance of the closed form:
      one in another pod on the way up, one below `d` on the way down. */
  function Farthest(half: Half, c: Place, d: Place): Place
  {
    match d
    case HostAt(_, _, _) => d
    case TorAt(p, e) => if c.AggAt? then HostAt(p, e, 0) else HostAt(if p == 0 then 1 else 0, 0, 0)
    case AggAt(p, a) => if c.CoreAt? then HostAt(p, 0, 0) else HostAt(if p == 0 then 1 else 0, 0, 0)
    case CoreAt(_, _) => if c.AggAt? && c.pod == 0 then HostAt(1, 0, 0) else HostAt(0, 0, 0)
  }

  lemma FarthestIsServed(half: Half, c: Place, d: Place)
    requires InTree(half, c) && InTree(half, d) && Adjacent(c, d)
    ensures var x := Farthest(half, c, d);
            x.HostAt? && InTree(half, x)
            && HopsToHost(c, x) == ClosedForm(c, d) && HopsToHost(d, x) == ClosedForm(c, d) - 1
  {
  }

  lemma ServedIsNoFarther(c: Place, d: Place, x: Place)
    requires Adjacent(c, d) && x.HostAt? && HopsToHost(c, x) == HopsToHost(d, x) + 1
    ensures HopsToHost(c, x) <= ClosedForm(c, d)
  {
  }

  lemma TableEntry(t: DcnTopo, half: Half, g: Graph, u: nat, v: nat)
    requires IsFatTree(t, half) && IsFatGraph(t, half, g) && Valid(g) && Symmetric(g)
    requires u < t.total && v in g[u]
    ensures LongestVia(g, HostSet(t.numHosts), u, v, ClosedForm(PlaceOf(t, half, u), PlaceOf(t, half, v)))
  {
    hide IsFatTree, Adjacent, InTree, PlaceOf, Farthest, ClosedForm;
    var (c, d) := (PlaceOf(t, half, u), PlaceOf(t, half, v));
    var m := ClosedForm(c, d);
    PlaceThenId(t, half, u);
    PlaceThenId(t, half, v);
    forall x: nat | x < t.numHosts
      ensures PlaceOf(t, half, x).HostAt?
      ensures Dist(g, u, x) == HopsToHost(c, PlaceOf(t, half, x))
      ensures Dist(g, v, x) == HopsToHost(d, PlaceOf(t, half, x))
      ensures StartsShortest(g, u, v, x) ==> Dist(g, u, x) <= m
    {
      HostDistances(t, half, g, x);
      DistSymmetric(g, u, x);
      DistSymmetric(g, v, x);
      FirstHopTest(g, u, v, x);
      if StartsShortest(g, u, v, x) {
        ServedIsNoFarther(c, d, PlaceOf(t, half, x));
      }
    }
    FarthestIsServed(half, c, d);
    var y := Farthest(half, c, d);
    IdThenPlace(t, half, y);
    var x := IdOf(t, y);
    HostIdThenPlace(t, half, y);
    FirstHopTest(g, u, v, x);
    assert x in HostSet(t.numHosts) && StartsShortest(g, u, v, x) && Dist(g, u, x) == m;
  }

  /** The directed-link table the simulator computes for a fat tree, link by link. */
  lemma FatTreeTable(t: DcnTopo, half: Half, links: seq<Link>, g: Graph, table: map<nat, nat>, c: Place, d: Place)
    requires IsFatTree(t, half) && AreFatLinks(t, half, links) && IsAdjacency(t.total, links, g)
    requires IsHopTable(g, HostSet(t.numHosts), table)
    requires InTree(half, c) && InTree(half, d) && Adjacent(c, d)
    ensures var key := MakeDirectedLinkKey(IdOf(t, c), IdOf(t, d)); key in table && table[key] == ClosedForm(c, d)
  {
    hide IsFatTree, AreFatLinks, InTree, Adjacent, PlaceOf, IdOf, ClosedForm, LongestVia;
    AdjacencyIsFat(t, half, links, g);
    IdThenPlace(t, half, c);
    IdThenPlace(t, half, d);
    var (u, v) := (IdOf(t, c), IdOf(t, d));
    assert v in g[u];
    TableEntry(t, half, g, u, v);
    LongestViaUnique(g, HostSet(t.numHosts), u, v, table[MakeDirectedLinkKey(u, v)], ClosedForm(c, d));
  }

  /** Two hosts of a fat tree are at most 6 hops apart, and some are: the host-to-host maximum is 6. */
  lemma FatTreeDiameter(t: DcnTopo, half: Half, links: seq<Link>, g: Graph, m: nat)
    requires IsFatTree(t, half) && AreFatLinks(t, half, links) && IsAdjacency(t.total, links, g)
    requires IsDiameter(g, HostSet(t.numHosts), m)
    ensures m == 6
  {
    hide IsFatTree, AreFatLinks, PlaceOf, IdOf;
    AdjacencyIsFat(t, half, links, g);
    forall s: nat, d: nat | s < t.numHosts && d < t.numHosts
      ensures Dist(g, s, d) <= 6
    {
      HostDistances(t, half, g, s);
    }
    var (c, d) := (HostAt(0, 0, 0), HostAt(1, 0, 0));
    FatTreeSizes(t, half);
    HostIdThenPlace(t, half, c);
    HostIdThenPlace(t, half, d);
    HostDistances(t, half, g, IdOf(t, c));
    assert IdOf(t, c) in HostSet(t.numHosts) && IdOf(t, d) in HostSet(t.numHosts);
  }
}
