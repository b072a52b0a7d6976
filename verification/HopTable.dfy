/**
  The two hop tables of the simulator (ns3/scratch/DCN.cc).

  For a directed link `u -> v` the table holds the longest distance from `u` to a host that some
  shortest walk starting with that link leads to, and at least 1. `LongestVia` says so in terms of
  walks; the code only compares distances.
*/
module HopTable {
  import opened Graphs
  import opened Bfs

  /** Some shortest walk from `u` to `dst` begins with the link `u -> v`. */
  ghost predicate StartsShortest(g: Graph, u: nat, v: nat, dst: nat) {
    exists p :: WalkBetween(g, u, dst, p) && |p| >= 2 && p[1] == v && |p| == Dist(g, u, dst) + 1
  }

  /** `m` is the largest distance over the hosts a shortest walk through `u -> v` serves, and at least 1. */
  ghost predicate LongestVia(g: Graph, hosts: set<nat>, u: nat, v: nat, m: nat) {
    && m >= 1
    && (forall dst :: dst in hosts && StartsShortest(g, u, v, dst) ==> Dist(g, u, dst) <= m)
    && (m == 1 || exists dst :: dst in hosts && StartsShortest(g, u, v, dst) && Dist(g, u, dst) == m)
  }

  /** `m` is the largest distance between two hosts, and at least 1. */
  ghost predicate IsDiameter(g: Graph, hosts: set<nat>, m: nat) {
    && m >= 1
    && (forall s, d :: s in hosts && d in hosts ==> Dist(g, s, d) <= m)
    && (m == 1 || exists s, d :: s in hosts && d in hosts && Dist(g, s, d) == m)
  }

  /** The host ids `0..numHosts`. */
  ghost function HostSet(numHosts: nat): (hosts: set<nat>)
    ensures forall h :: h in hosts <==> 0 <= h < numHosts
  {
    if numHosts == 0 then {} else HostSet(numHosts - 1) + {numHosts - 1}
  }

  /** The comparison of distances the code makes is the statement about walks. */
  lemma FirstHopTest(g: Graph, u: nat, v: nat, dst: nat)
    requires u < |g| && v in g[u]
    ensures StartsShortest(g, u, v, dst)
       <==> Dist(g, u, dst) > 0 && Dist(g, v, dst) >= 0 && Dist(g, u, dst) == Dist(g, v, dst) + 1
  {
    if StartsShortest(g, u, v, dst) {
      var p :| WalkBetween(g, u, dst, p) && |p| >= 2 && p[1] == v && |p| == Dist(g, u, dst) + 1;
      WalkBound(g, v, dst, p[1..]);
      FirstStep(g, u, v, dst);
    }
    if Dist(g, v, dst) >= 0 && Dist(g, u, dst) == Dist(g, v, dst) + 1 {
      var q := ShortestWalk(g, v, dst);
      assert WalkBetween(g, u, dst, [u] + q) && ([u] + q)[1] == v;
    }
  }

  lemma LongestViaUnique(g: Graph, hosts: set<nat>, u: nat, v: nat, m: nat, n: nat)
    requires LongestVia(g, hosts, u, v, m) && LongestVia(g, hosts, u, v, n)
    ensures m == n
  {
  }

  // ---------- the directed-link table ----------

  /** Source id in the upper half of a 64-bit word, target id in the lower half. */
  function MakeDirectedLinkKey(from: nat, to: nat): nat {
    from * 0x1_0000_0000 + to
  }

  /** The key's two halves are the two ends. */
  lemma KeyHalves(from: nat, to: nat)
    requires to < 0x1_0000_0000
    ensures MakeDirectedLinkKey(from, to) / 0x1_0000_0000 == from && MakeDirectedLinkKey(from, to) % 0x1_0000_0000 == to
  {
  }

  /** On 32-bit ids no two links share a key. */
  lemma KeysAreInjective(u: nat, v: nat, x: nat, y: nat)
    requires v < 0x1_0000_0000 && y < 0x1_0000_0000
    ensures MakeDirectedLinkKey(u, v) == MakeDirectedLinkKey(x, y) <==> u == x && v == y
  {
  }

  /** The table: one entry for every directed link, holding that link's longest downstream distance. */
  ghost predicate IsHopTable(g: Graph, hosts: set<nat>, table: map<nat, nat>) {
    && (forall u: nat, v: nat :: u < |g| && v in g[u] ==>
          MakeDirectedLinkKey(u, v) in table && LongestVia(g, hosts, u, v, table[MakeDirectedLinkKey(u, v)]))
    && (forall key :: key in table ==>
          exists u: nat, v: nat :: u < |g| && v in g[u] && key == MakeDirectedLinkKey(u, v))
  }

  ghost predicate AreRows(adj: Graph, rows: seq<seq<int>>) {
    forall u :: 0 <= u < |rows| ==> IsRow(adj, u, rows[u])
  }

  method AllDistances(adj: Graph) returns (rows: seq<seq<int>>)
    requires Valid(adj)
    ensures |rows| == |adj| && AreRows(adj, rows)
  {
    rows := [];
    var src := 0;
    while src < |adj|
      invariant 0 <= src <= |adj| && |rows| == src && AreRows(adj, rows)
    {
      var row := Distances(adj, src);
      rows := rows + [row];
      src := src + 1;
    }
  }

  /** The scan over destination hosts for one directed link. */
  method LongestDownstream(adj: Graph, rows: seq<seq<int>>, numHosts: nat, src: nat, nxt: nat) returns (maxHops: nat)
    requires Valid(adj) && numHosts <= |adj| && src < |adj| && nxt in adj[src]
    requires |rows| == |adj| && AreRows(adj, rows)
    ensures LongestVia(adj, HostSet(numHosts), src, nxt, maxHops)
  {
    maxHops := 1;
    var dst := 0;
    while dst < numHosts
      invariant 0 <= dst <= numHosts
      invariant LongestVia(adj, HostSet(dst), src, nxt, maxHops)
    {
      FirstHopTest(adj, src, nxt, dst);
      DistSelf(adj, dst);
      assert HostSet(dst + 1) == HostSet(dst) + {dst};
      if dst != src {
        assert IsRow(adj, src, rows[src]) && IsRow(adj, nxt, rows[nxt]);
        var srcToDstHops := rows[src][dst];
        var nxtToDstHops := rows[nxt][dst];
        if !(srcToDstHops <= 0 || nxtToDstHops < 0) {
          if srcToDstHops == nxtToDstHops + 1 {
            maxHops := if srcToDstHops > maxHops then srcToDstHops else maxHops;
          }
        }
      }
      dst := dst + 1;
    }
  }

  method ComputeMaxDownstreamHostHopsPerDirectedLink(numHosts: nat, total: nat, links: seq<Link>)
    returns (table: map<nat, nat>)
    requires numHosts <= total <= 0x1_0000_0000
    ensures IsHopTable(Adjacency(total, links), HostSet(numHosts), table)
  {
    table := map[];
    var adj := BuildAdjacency(total, links);
    if total == 0 {
      return;
    }
    AdjacencyIsUndirected(total, links, adj);
    var rows := AllDistances(adj);
    ghost var hosts := HostSet(numHosts);
    var src := 0;
    while src < total
      invariant 0 <= src <= total
      invariant TableUpTo(adj, hosts, table, src, 0)
    {
      var i := 0;
      while i < |adj[src]|
        invariant 0 <= i <= |adj[src]|
        invariant TableUpTo(adj, hosts, table, src, i)
      {
        var nxt := adj[src][i];
        assert nxt in adj[src];
        var maxHops := LongestDownstream(adj, rows, numHosts, src, nxt);
        ExtendTable(adj, hosts, table, src, i, maxHops);
        table := table[MakeDirectedLinkKey(src, nxt) := maxHops];
        i := i + 1;
      }
      src := src + 1;
    }
  }

  ghost predicate Listed(g: Graph, src: nat, done: nat, u: nat, v: nat) {
    u < |g| && v in g[u] && (u < src || (u == src && exists i :: 0 <= i < done && i < |g[u]| && g[u][i] == v))
  }

  /** The table holds exactly the links of the sources before `src` and the first `done` links of `src`. */
  ghost predicate TableUpTo(g: Graph, hosts: set<nat>, table: map<nat, nat>, src: nat, done: nat) {
    && (forall u: nat, v: nat :: Listed(g, src, done, u, v) ==>
          MakeDirectedLinkKey(u, v) in table && LongestVia(g, hosts, u, v, table[MakeDirectedLinkKey(u, v)]))
    && (forall key :: key in table ==>
          exists u: nat, v: nat :: Listed(g, src, done, u, v) && key == MakeDirectedLinkKey(u, v))
  }

  lemma ExtendTable(g: Graph, hosts: set<nat>, table: map<nat, nat>, src: nat, done: nat, m: nat)
    requires Valid(g) && |g| <= 0x1_0000_0000 && src < |g| && done < |g[src]|
    requires TableUpTo(g, hosts, table, src, done) && LongestVia(g, hosts, src, g[src][done], m)
    ensures TableUpTo(g, hosts, table[MakeDirectedLinkKey(src, g[src][done]) := m], src, done + 1)
  {
    var nxt := g[src][done];
    var after := table[MakeDirectedLinkKey(src, nxt) := m];
    forall u: nat, v: nat | Listed(g, src, done + 1, u, v)
      ensures MakeDirectedLinkKey(u, v) in after && LongestVia(g, hosts, u, v, after[MakeDirectedLinkKey(u, v)])
    {
      KeysAreInjective(u, v, src, nxt);
      assert Listed(g, src, done, u, v) || (u == src && v == nxt);
    }
    forall key | key in after
      ensures exists u: nat, v: nat :: Listed(g, src, done + 1, u, v) && key == MakeDirectedLinkKey(u, v)
    {
      if key in table {
        var u: nat, v: nat :| Listed(g, src, done, u, v) && key == MakeDirectedLinkKey(u, v);
        assert Listed(g, src, done + 1, u, v);
      } else {
        assert Listed(g, src, done + 1, src, nxt);
      }
    }
  }

  // ---------- the host-to-host maximum ----------

  method ComputeMaxHostToHostHops(numHosts: nat, total: nat, links: seq<Link>) returns (maxHops: nat)
    requires numHosts <= total
    ensures IsDiameter(Adjacency(total, links), HostSet(numHosts), maxHops)
  {
    var adj := BuildAdjacency(total, links);
    AdjacencyIsUndirected(total, links, adj);
    ghost var hosts := HostSet(numHosts);
    if numHosts < 2 || total == 0 {
      forall s, d | s in hosts && d in hosts
        ensures Dist(adj, s, d) <= 1
      {
        DistSelf(adj, s);
      }
      return 1;
    }
    maxHops := 1;
    var src := 0;
    while src < numHosts
      invariant 0 <= src <= numHosts && maxHops >= 1
      invariant forall s, d :: 0 <= s < src && d in hosts ==> Dist(adj, s, d) <= maxHops
      invariant maxHops == 1 || exists s, d :: s in hosts && d in hosts && Dist(adj, s, d) == maxHops
    {
      var dist := Distances(adj, src);
      var dst := 0;
      while dst < numHosts
        invariant 0 <= dst <= numHosts && maxHops >= 1
        invariant forall s, d :: 0 <= s < src && d in hosts ==> Dist(adj, s, d) <= maxHops
        invariant forall d :: 0 <= d < dst ==> Dist(adj, src, d) <= maxHops
        invariant maxHops == 1 || exists s, d :: s in hosts && d in hosts && Dist(adj, s, d) == maxHops
      {
        DistSelf(adj, src);
        if dst != src && dist[dst] > maxHops {
          assert src in hosts && dst in hosts;
          maxHops := dist[dst];
        }
        dst := dst + 1;
      }
      src := src + 1;
    }
  }

  /** The host-to-host maximum is the largest table entry over the links that leave a host, and 1 if
      there is none: the longest shortest walk between two hosts has a first link. */
  lemma DiameterIsLargestHostEntry(g: Graph, numHosts: nat, table: map<nat, nat>, m: nat)
    requires Valid(g) && numHosts <= |g| <= 0x1_0000_0000
    requires IsHopTable(g, HostSet(numHosts), table) && IsDiameter(g, HostSet(numHosts), m)
    ensures forall u: nat, v: nat :: u < numHosts && v in g[u] ==> table[MakeDirectedLinkKey(u, v)] <= m
    ensures m == 1 || exists u: nat, v: nat :: u < numHosts && v in g[u] && table[MakeDirectedLinkKey(u, v)] == m
  {
    var hosts := HostSet(numHosts);
    if m > 1 {
      var s, d :| s in hosts && d in hosts && Dist(g, s, d) == m;
      var v, p := Successor(g, s, d);
      assert StartsShortest(g, s, v, d);
      var x := table[MakeDirectedLinkKey(s, v)];
      assert LongestVia(g, hosts, s, v, x);
      assert x <= m;
      assert table[MakeDirectedLinkKey(s, v)] == m;
    }
  }

  // ---------- renaming ----------

  /** A renaming that matches up links and hosts carries every table entry over. */
  lemma RelabelLongestVia(g: Graph, h: Graph, name: seq<nat>, gHosts: set<nat>, hHosts: set<nat>, u: nat, v: nat, m: nat)
    requires Valid(g) && Valid(h) && Relabels(g, h, name) && u < |g| && v in g[u]
    requires forall w :: w in gHosts ==> w < |g| && name[w] in hHosts
    requires forall x :: x in hHosts ==> exists w :: w in gHosts && name[w] == x
    ensures LongestVia(g, gHosts, u, v, m) <==> LongestVia(h, hHosts, name[u], name[v], m)
  {
    forall w | w in gHosts
      ensures Dist(g, u, w) == Dist(h, name[u], name[w])
      ensures StartsShortest(g, u, v, w) <==> StartsShortest(h, name[u], name[v], name[w])
    {
      RelabelDist(g, h, name, u, w);
      RelabelDist(g, h, name, v, w);
      FirstHopTest(g, u, v, w);
      FirstHopTest(h, name[u], name[v], name[w]);
    }
  }
}
