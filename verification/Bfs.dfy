/**
  The two breadth-first searches: the simulator's, which pops the front of a queue
  (ns3/scratch/DCN.cc), and the browser's, which walks a head index along a growing list
  (frontend/app/page.tsx). Both are proved to fill in `Graphs.Dist`, the length of a shortest walk,
  with -1 for unreachable nodes, on every graph.
*/
module Bfs {
  import opened Lists
  import opened Graphs

  /** A link of the simulated network; its two ends can each send to the other. */
  datatype Link = Link(from: nat, to: nat)

  ghost predicate Joined(links: seq<Link>, u: nat, v: nat) {
    Link(u, v) in links || Link(v, u) in links
  }

  /** The neighbour lists of an undirected link list on nodes `0..total`, links that leave the range being skipped. */
  ghost predicate IsAdjacency(total: nat, links: seq<Link>, adj: Graph) {
    && |adj| == total
    && forall u: nat, v: nat :: u < total ==> (v in adj[u] <==> v < total && Joined(links, u, v))
  }

  lemma AdjacencyIsUndirected(total: nat, links: seq<Link>, adj: Graph)
    requires IsAdjacency(total, links, adj)
    ensures Valid(adj) && Symmetric(adj)
  {
  }

  function AddNeighbour(adj: Graph, u: nat, v: nat): (r: Graph)
    requires u < |adj|
    ensures |r| == |adj|
    ensures forall x, y :: 0 <= x < |adj| ==> (y in r[x] <==> y in adj[x] || (x == u && y == v))
  {
    adj[u := adj[u] + [v]]
  }

  /** The neighbour lists in the order in which the links name them. */
  function Adjacency(total: nat, links: seq<Link>): (adj: Graph)
    ensures IsAdjacency(total, links, adj)
  {
    if links == [] then seq(total, _ => [])
    else
      var (front, link) := (links[..|links| - 1], links[|links| - 1]);
      assert links == front + [link];
      var adj := Adjacency(total, front);
      if link.from >= total || link.to >= total then adj
      else AddNeighbour(AddNeighbour(adj, link.from, link.to), link.to, link.from)
  }

  /** The other ends of the links at `u`, in the order of the links. */
  function OtherEnds(total: nat, links: seq<Link>, u: nat): seq<nat> {
    if links == [] then []
    else
      var (front, link) := (links[..|links| - 1], links[|links| - 1]);
      OtherEnds(total, front, u)
      + (if link.from == u && link.to < total then [link.to] else [])
      + (if link.to == u && link.from < total then [link.from] else [])
  }

  /** Each list names the neighbours in the order of the links. */
  lemma {:induction false} ListedInOrder(total: nat, links: seq<Link>, u: nat)
    requires u < total
    ensures Adjacency(total, links)[u] == OtherEnds(total, links, u)
    decreases |links|
  {
    if links != [] {
      ListedInOrder(total, links[..|links| - 1], u);
    }
  }

  method BuildAdjacency(total: nat, links: seq<Link>) returns (adj: Graph)
    ensures adj == Adjacency(total, links)
  {
    adj := seq(total, _ => []);
    var i := 0;
    while i < |links|
      invariant 0 <= i <= |links|
      invariant adj == Adjacency(total, links[..i])
    {
      var link := links[i];
      assert links[..i + 1][..i] == links[..i];
      if !(link.from >= total || link.to >= total) {
        adj := AddNeighbour(adj, link.from, link.to);
        adj := AddNeighbour(adj, link.to, link.from);
      }
      i := i + 1;
    }
    assert links[..i] == links;
  }

  /** No link joins a node to itself, and no two are the same, in either direction. */
  ghost predicate IsSimple(links: seq<Link>) {
    && (forall i :: 0 <= i < |links| ==> links[i].from != links[i].to)
    && (forall i, j :: 0 <= i < j < |links| ==> links[i] != links[j] && links[i] != Link(links[j].to, links[j].from))
  }

  /** Then no neighbour is listed twice. */
  lemma {:induction false} NeighboursOnce(total: nat, links: seq<Link>, u: nat)
    requires IsSimple(links) && u < total
    ensures NoRepeats(Adjacency(total, links)[u])
    decreases |links|
  {
    if links != [] {
      var (front, link) := (links[..|links| - 1], links[|links| - 1]);
      NeighboursOnce(total, front, u);
      assert !Joined(front, link.from, link.to) && !Joined(front, link.to, link.from);
    }
  }

  /** The distances from `src`, node by node. */
  ghost predicate IsRow(g: Graph, src: nat, row: seq<int>) {
    |row| == |g| && forall v :: 0 <= v < |g| ==> row[v] == Dist(g, src, v)
  }

  // ---------- what both searches keep ----------

  /** The labels given so far: 0 for the source alone, and each label above 0 entered from one below. */
  ghost predicate Labelled(g: Graph, src: nat, dist: seq<int>) {
    && |dist| == |g| && src < |g| && Valid(g)
    && (forall v :: 0 <= v < |g| ==> dist[v] >= -1 && (dist[v] == 0 <==> v == src))
    && (forall v :: 0 <= v < |g| && dist[v] > 0 ==> HasLower(g, dist, v))
  }

  /** The waiting nodes are labelled, in non-decreasing order, and span at most two labels. */
  ghost predicate Waiting(dist: seq<int>, queue: seq<nat>) {
    && (forall i :: 0 <= i < |queue| ==> queue[i] < |dist| && dist[queue[i]] >= 0)
    && (forall i, j :: 0 <= i < j < |queue| ==> dist[queue[i]] <= dist[queue[j]] <= dist[queue[i]] + 1)
  }

  /** All neighbours of `u` are labelled, at most one above it. */
  ghost predicate Expanded(g: Graph, dist: seq<int>, u: nat)
    requires |dist| == |g| && u < |g| && Valid(g)
  {
    forall v :: v in g[u] ==> 0 <= dist[v] <= dist[u] + 1
  }

  /** Labelled nodes that do not wait have been expanded. */
  ghost predicate Settled(g: Graph, dist: seq<int>, queue: seq<nat>)
    requires |dist| == |g| && Valid(g)
  {
    forall u :: 0 <= u < |g| && dist[u] >= 0 && u !in queue ==> Expanded(g, dist, u)
  }

  ghost predicate AtMost(dist: seq<int>, bound: int) {
    forall u :: 0 <= u < |dist| ==> dist[u] <= bound
  }

  /** The invariant of the outer loops. */
  ghost predicate Frontier(g: Graph, src: nat, dist: seq<int>, queue: seq<nat>) {
    && Labelled(g, src, dist) && Waiting(dist, queue) && Settled(g, dist, queue)
    && (queue != [] ==> AtMost(dist, dist[queue[0]] + 1))
  }

  /** The invariant of the inner loops, the first `done` neighbours of `cur` having been looked at. */
  ghost predicate Scanning(g: Graph, src: nat, dist: seq<int>, cur: nat, done: nat, queue: seq<nat>) {
    && Labelled(g, src, dist) && cur < |g| && dist[cur] >= 0 && done <= |g[cur]|
    && Waiting(dist, [cur] + queue) && Settled(g, dist, [cur] + queue) && AtMost(dist, dist[cur] + 1)
    && (forall v :: v in g[cur][..done] ==> v < |g| && dist[v] >= 0)
  }

  lemma StartScan(g: Graph, src: nat, dist: seq<int>, queue: seq<nat>)
    requires Frontier(g, src, dist, queue) && queue != []
    ensures Scanning(g, src, dist, queue[0], 0, queue[1..])
  {
  }

  lemma SkipNeighbour(g: Graph, src: nat, dist: seq<int>, cur: nat, done: nat, queue: seq<nat>)
    requires Scanning(g, src, dist, cur, done, queue) && done < |g[cur]|
    requires g[cur][done] < |g| && dist[g[cur][done]] != -1
    ensures Scanning(g, src, dist, cur, done + 1, queue)
  {
    hide Waiting, Settled, AtMost, HasLower;
    assert g[cur][..done + 1] == g[cur][..done] + [g[cur][done]];
  }

  lemma LabelKeepsLabelled(g: Graph, src: nat, dist: seq<int>, cur: nat, nxt: nat)
    requires Labelled(g, src, dist) && cur < |g| && dist[cur] >= 0
    requires nxt < |g| && nxt in g[cur] && dist[nxt] == -1
    ensures Labelled(g, src, dist[nxt := dist[cur] + 1])
  {
  }

  lemma LabelKeepsWaiting(dist: seq<int>, queue: seq<nat>, nxt: nat)
    requires queue != [] && Waiting(dist, queue) && nxt < |dist| && dist[nxt] == -1
    ensures Waiting(dist[nxt := dist[queue[0]] + 1], queue + [nxt])
  {
  }

  lemma LabelKeepsSettled(g: Graph, dist: seq<int>, queue: seq<nat>, nxt: nat, depth: nat)
    requires |dist| == |g| && Valid(g) && Settled(g, dist, queue)
    requires nxt < |g| && dist[nxt] == -1
    ensures Settled(g, dist[nxt := depth], queue + [nxt])
  {
  }

  lemma LabelNeighbour(g: Graph, src: nat, dist: seq<int>, cur: nat, done: nat, queue: seq<nat>)
    requires Scanning(g, src, dist, cur, done, queue) && done < |g[cur]|
    requires g[cur][done] < |g| && dist[g[cur][done]] == -1
    ensures Scanning(g, src, dist[g[cur][done] := dist[cur] + 1], cur, done + 1, queue + [g[cur][done]])
    ensures Unlabelled(dist[g[cur][done] := dist[cur] + 1]) < Unlabelled(dist)
  {
    hide Waiting, Settled, HasLower;
    var nxt := g[cur][done];
    assert [cur] + (queue + [nxt]) == ([cur] + queue) + [nxt];
    assert g[cur][..done + 1] == g[cur][..done] + [nxt];
    LabelKeepsLabelled(g, src, dist, cur, nxt);
    LabelKeepsWaiting(dist, [cur] + queue, nxt);
    LabelKeepsSettled(g, dist, [cur] + queue, nxt, dist[cur] + 1);
    assert nxt in Unlabelled(dist);
  }

  lemma EndScan(g: Graph, src: nat, dist: seq<int>, cur: nat, queue: seq<nat>)
    requires cur < |g| && Scanning(g, src, dist, cur, |g[cur]|, queue)
    ensures Frontier(g, src, dist, queue)
  {
    var all := [cur] + queue;
    assert g[cur][..|g[cur]|] == g[cur];
    assert Expanded(g, dist, cur);
    assert forall i :: 0 <= i < |queue| ==> all[i + 1] == queue[i];
    assert forall u :: u in all ==> u == cur || u in queue;
    assert Waiting(dist, queue) by {
      forall i, j | 0 <= i < j < |queue|
        ensures queue[i] < |dist| && queue[j] < |dist|
        ensures dist[queue[i]] <= dist[queue[j]] <= dist[queue[i]] + 1
      {
        assert all[i + 1] == queue[i] && all[j + 1] == queue[j];
      }
    }
    if queue != [] {
      assert all[0] == cur && all[1] == queue[0];
    }
  }

  lemma Exhausted(g: Graph, src: nat, dist: seq<int>)
    requires Frontier(g, src, dist, [])
    ensures IsRow(g, src, dist)
  {
    forall u, v | 0 <= u < |g| && v in g[u] && dist[u] >= 0
      ensures v < |g| && 0 <= dist[v] <= dist[u] + 1
    {
      assert Expanded(g, dist, u);
    }
    LevelsAreDistances(g, src, dist);
  }

  /** The nodes without a label; every push takes one of them away, which is why the searches end. */
  ghost function Unlabelled(dist: seq<int>): set<nat> {
    set v: nat | v < |dist| && dist[v] == -1
  }

  lemma StartSearch(g: Graph, src: nat, dist: seq<int>)
    requires Valid(g) && src < |g| && |dist| == |g|
    requires forall v :: 0 <= v < |g| ==> dist[v] == if v == src then 0 else -1
    ensures Frontier(g, src, dist, [src])
  {
  }

  // ---------- the simulator's search ----------

  method Distances(adj: Graph, src: nat) returns (row: seq<int>)
    requires Valid(adj) && src < |adj|
    ensures IsRow(adj, src, row)
  {
    hide Labelled, Waiting, Settled, AtMost;
    var dist := new int[|adj|](_ => -1);
    dist[src] := 0;
    var q := [src];
    ghost var labels := dist[..];
    StartSearch(adj, src, labels);
    while q != []
      invariant dist[..] == labels
      invariant Frontier(adj, src, labels, q)
      decreases Unlabelled(labels), |q|
    {
      var cur := q[0];
      StartScan(adj, src, labels, q);
      ghost var unlabelled, waiting := Unlabelled(labels), |q|;
      q := q[1..];
      var i := 0;
      while i < |adj[cur]|
        invariant 0 <= i <= |adj[cur]| && dist[..] == labels
        invariant Scanning(adj, src, labels, cur, i, q)
        invariant Unlabelled(labels) < unlabelled || (Unlabelled(labels) == unlabelled && |q| == waiting - 1)
      {
        var nxt := adj[cur][i];
        assert nxt in adj[cur] && |labels| == dist.Length;
        assert dist[nxt] == labels[nxt] && dist[cur] == labels[cur];
        if dist[nxt] == -1 {
          LabelNeighbour(adj, src, labels, cur, i, q);
          dist[nxt] := dist[cur] + 1;
          labels := labels[nxt := labels[cur] + 1];
          q := q + [nxt];
        } else {
          SkipNeighbour(adj, src, labels, cur, i, q);
        }
        i := i + 1;
      }
      EndScan(adj, src, labels, cur, q);
    }
    Exhausted(adj, src, labels);
    row := dist[..];
  }

  // ---------- the browser's search ----------

  method DistancesByHead(adj: Graph, src: nat) returns (row: seq<int>)
    requires Valid(adj) && src < |adj|
    ensures IsRow(adj, src, row)
  {
    hide Labelled, Waiting, Settled, AtMost;
    var dist := new int[|adj|](_ => -1);
    var queue := [src];
    dist[src] := 0;
    var head := 0;
    ghost var labels := dist[..];
    StartSearch(adj, src, labels);
    while head < |queue|
      invariant 0 <= head <= |queue| && dist[..] == labels
      invariant Frontier(adj, src, labels, queue[head..])
      decreases Unlabelled(labels), |queue| - head
    {
      var cur := queue[head];
      StartScan(adj, src, labels, queue[head..]);
      assert queue[head..][1..] == queue[head + 1..];
      ghost var unlabelled, waiting := Unlabelled(labels), |queue|;
      var i := 0;
      while i < |adj[cur]|
        invariant 0 <= i <= |adj[cur]| && head < |queue| && dist[..] == labels
        invariant Scanning(adj, src, labels, cur, i, queue[head + 1..])
        invariant Unlabelled(labels) < unlabelled || (Unlabelled(labels) == unlabelled && |queue| == waiting)
      {
        var nxt := adj[cur][i];
        assert nxt in adj[cur] && |labels| == dist.Length;
        assert dist[nxt] == labels[nxt] && dist[cur] == labels[cur];
        if dist[nxt] == -1 {
          LabelNeighbour(adj, src, labels, cur, i, queue[head + 1..]);
          dist[nxt] := dist[cur] + 1;
          labels := labels[nxt := labels[cur] + 1];
          assert (queue + [nxt])[head + 1..] == queue[head + 1..] + [nxt];
          queue := queue + [nxt];
        } else {
          SkipNeighbour(adj, src, labels, cur, i, queue[head + 1..]);
        }
        i := i + 1;
      }
      EndScan(adj, src, labels, cur, queue[head + 1..]);
      head := head + 1;
    }
    assert queue[head..] == [];
    Exhausted(adj, src, labels);
    row := dist[..];
  }
}
