/**
  Shortest walks in a finite directed graph given by adjacency lists.

  Nothing here looks at an algorithm: a distance is the length of a shortest walk, and the two
  central lemmas say how a table of numbers is recognised as the table of distances from one node
  (`LevelsAreDistances`), and that distances survive a renaming of the nodes (`RelabelDist`).
*/
module Graphs {
  type Graph = seq<seq<nat>>

  ghost predicate Valid(g: Graph) {
    forall u, v :: 0 <= u < |g| && v in g[u] ==> v < |g|
  }

  ghost predicate Symmetric(g: Graph) {
    forall u, v :: 0 <= u < |g| && 0 <= v < |g| ==> (v in g[u] <==> u in g[v])
  }

  /** Each node of the walk is a neighbour of the one before it. */
  ghost predicate IsWalk(g: Graph, p: seq<nat>) {
    && |p| > 0
    && (forall i :: 0 <= i < |p| ==> p[i] < |g|)
    && (forall i :: 0 < i < |p| ==> p[i] in g[p[i - 1]])
  }

  ghost predicate WalkBetween(g: Graph, u: nat, v: nat, p: seq<nat>) {
    IsWalk(g, p) && p[0] == u && p[|p| - 1] == v
  }

  /** There is a walk of exactly `n` links from `u` to `v`. */
  ghost predicate Reaches(g: Graph, u: nat, v: nat, n: nat) {
    exists p :: WalkBetween(g, u, v, p) && |p| == n + 1
  }

  /** `d` is the length of a shortest walk from `u` to `v`, or -1 when there is none. */
  ghost predicate IsDistance(g: Graph, u: nat, v: nat, d: int) {
    if d < 0 then d == -1 && forall n: nat :: !Reaches(g, u, v, n)
    else Reaches(g, u, v, d) && forall n: nat :: n < d ==> !Reaches(g, u, v, n)
  }

  lemma {:induction false} SomeDistance(g: Graph, u: nat, v: nat, n: nat) returns (d: int)
    requires Reaches(g, u, v, n)
    ensures d >= 0 && IsDistance(g, u, v, d)
    decreases n
  {
    if m: nat :| m < n && Reaches(g, u, v, m) {
      d := SomeDistance(g, u, v, m);
    } else {
      d := n;
    }
  }

  lemma DistanceExists(g: Graph, u: nat, v: nat)
    ensures exists d :: IsDistance(g, u, v, d)
  {
    if n: nat :| Reaches(g, u, v, n) {
      var d := SomeDistance(g, u, v, n);
    } else {
      assert IsDistance(g, u, v, -1);
    }
  }

  ghost function Dist(g: Graph, u: nat, v: nat): (d: int)
    ensures IsDistance(g, u, v, d)
  {
    DistanceExists(g, u, v);
    var d :| IsDistance(g, u, v, d);
    d
  }

  lemma ShortestWalk(g: Graph, u: nat, v: nat) returns (p: seq<nat>)
    requires Dist(g, u, v) >= 0
    ensures WalkBetween(g, u, v, p) && |p| == Dist(g, u, v) + 1
  {
    var d := Dist(g, u, v);
    assert Reaches(g, u, v, d);
    p :| WalkBetween(g, u, v, p) && |p| == d + 1;
  }

  /** No walk is shorter than the distance. */
  lemma WalkBound(g: Graph, u: nat, v: nat, p: seq<nat>)
    requires WalkBetween(g, u, v, p)
    ensures 0 <= Dist(g, u, v) < |p|
  {
    assert Reaches(g, u, v, |p| - 1);
  }

  lemma DistSelf(g: Graph, u: nat)
    requires u < |g|
    ensures Dist(g, u, u) == 0
  {
    WalkBound(g, u, u, [u]);
  }

  lemma DistZero(g: Graph, u: nat, v: nat)
    requires Dist(g, u, v) == 0
    ensures u == v < |g|
  {
  }

  /** Prepending a link `u -> v` to a walk from `v`. */
  lemma FirstStep(g: Graph, u: nat, v: nat, w: nat)
    requires u < |g| && v in g[u] && Dist(g, v, w) >= 0
    ensures 0 <= Dist(g, u, w) <= Dist(g, v, w) + 1
  {
    var p := ShortestWalk(g, v, w);
    WalkBound(g, u, w, [u] + p);
  }

  /** Appending a link `v -> w` to a walk to `v`. */
  lemma LastStep(g: Graph, u: nat, v: nat, w: nat)
    requires v < |g| && w < |g| && w in g[v] && Dist(g, u, v) >= 0
    ensures 0 <= Dist(g, u, w) <= Dist(g, u, v) + 1
  {
    var p := ShortestWalk(g, u, v);
    WalkBound(g, u, w, p + [w]);
  }

  /** The second node of a shortest walk is one closer to the target. */
  lemma Successor(g: Graph, u: nat, w: nat) returns (v: nat, p: seq<nat>)
    requires Dist(g, u, w) > 0
    ensures u < |g| && v < |g| && v in g[u] && Dist(g, v, w) == Dist(g, u, w) - 1
    ensures WalkBetween(g, u, w, p) && |p| == Dist(g, u, w) + 1 && p[1] == v
  {
    p := ShortestWalk(g, u, w);
    v := p[1];
    WalkBound(g, v, w, p[1..]);
    FirstStep(g, u, v, w);
  }

  /** The last but one node of a shortest walk is one closer to the source. */
  lemma Predecessor(g: Graph, u: nat, w: nat) returns (v: nat)
    requires Dist(g, u, w) > 0
    ensures v < |g| && w < |g| && w in g[v] && Dist(g, u, v) == Dist(g, u, w) - 1
  {
    var p := ShortestWalk(g, u, w);
    v := p[|p| - 2];
    WalkBound(g, u, v, p[..|p| - 1]);
    LastStep(g, u, v, w);
  }

  /** Walks can be read backwards, so in an undirected graph distances are symmetric. */
  lemma DistSymmetric(g: Graph, u: nat, v: nat)
    requires Symmetric(g)
    ensures Dist(g, u, v) == Dist(g, v, u)
  {
    if Dist(g, u, v) >= 0 { DistReversed(g, u, v); }
    if Dist(g, v, u) >= 0 { DistReversed(g, v, u); }
  }

  lemma DistReversed(g: Graph, u: nat, v: nat)
    requires Symmetric(g) && Dist(g, u, v) >= 0
    ensures 0 <= Dist(g, v, u) <= Dist(g, u, v)
  {
    var p := ShortestWalk(g, u, v);
    var q := seq(|p|, i requires 0 <= i < |p| => p[|p| - 1 - i]);
    forall i | 0 < i < |q|
      ensures q[i] in g[q[i - 1]]
    {
      assert p[|p| - i] in g[p[|p| - i - 1]];
    }
    WalkBound(g, v, u, q);
  }

  // ---------- recognising a table of distances ----------

  /** `level` starts at 0 in `src` alone, rises by at most one along a link out of a labelled node,
      and every positive level is entered from the level below. -1 marks an unlabelled node. */
  ghost predicate IsLevelling(g: Graph, src: nat, level: seq<int>) {
    |level| == |g| && src < |g| && ZeroAtSource(src, level) && RisesByOne(g, level) && FromBelow(g, level)
  }

  ghost predicate ZeroAtSource(src: nat, level: seq<int>) {
    forall v: nat :: v < |level| ==> level[v] >= -1 && (level[v] == 0 <==> v == src)
  }

  ghost predicate RisesByOne(g: Graph, level: seq<int>)
    requires |level| == |g|
  {
    forall u: nat, v: nat :: u < |g| && v in g[u] && level[u] >= 0 ==> v < |g| && 0 <= level[v] <= level[u] + 1
  }

  ghost predicate FromBelow(g: Graph, level: seq<int>)
    requires |level| == |g|
  {
    forall v: nat :: v < |g| && level[v] > 0 ==> HasLower(g, level, v)
  }

  ghost predicate HasLower(g: Graph, level: seq<int>, v: nat)
    requires |level| == |g| && v < |g|
  {
    exists u :: 0 <= u < |g| && v in g[u] && level[u] == level[v] - 1
  }

  lemma {:induction false} LevelReached(g: Graph, src: nat, level: seq<int>, v: nat)
    requires IsLevelling(g, src, level) && v < |g| && level[v] >= 0
    ensures 0 <= Dist(g, src, v) <= level[v]
    decreases level[v]
  {
    if level[v] == 0 {
      DistSelf(g, src);
    } else {
      assert HasLower(g, level, v);
      var u :| 0 <= u < |g| && v in g[u] && level[u] == level[v] - 1;
      LevelReached(g, src, level, u);
      LastStep(g, src, u, v);
    }
  }

  lemma {:induction false} WalkRaisesLevel(g: Graph, src: nat, level: seq<int>, p: seq<nat>)
    requires IsLevelling(g, src, level) && IsWalk(g, p) && p[0] == src
    ensures 0 <= level[p[|p| - 1]] <= |p| - 1
    decreases |p|
  {
    if |p| > 1 {
      WalkRaisesLevel(g, src, level, p[..|p| - 1]);
    }
  }

  /** A levelling is the table of distances from `src`. */
  lemma LevelsAreDistances(g: Graph, src: nat, level: seq<int>)
    requires IsLevelling(g, src, level)
    ensures forall v :: 0 <= v < |g| ==> Dist(g, src, v) == level[v]
  {
    forall v | 0 <= v < |g|
      ensures Dist(g, src, v) == level[v]
    {
      if level[v] >= 0 {
        LevelReached(g, src, level, v);
      }
      if Dist(g, src, v) >= 0 {
        var p := ShortestWalk(g, src, v);
        WalkRaisesLevel(g, src, level, p);
      }
    }
  }

  // ---------- renaming the nodes ----------

  /** `name` is a bijection of the node numbers that carries the links of `g` to those of `h`. */
  ghost predicate Relabels(g: Graph, h: Graph, name: seq<nat>) {
    && |name| == |g| == |h|
    && (forall u :: 0 <= u < |g| ==> name[u] < |h|)
    && (forall x :: 0 <= x < |h| ==> x in name)
    && (forall u, v :: 0 <= u < |g| && 0 <= v < |g| && name[u] == name[v] ==> u == v)
    && (forall u, v :: 0 <= u < |g| && 0 <= v < |g| ==> (v in g[u] <==> name[v] in h[name[u]]))
  }

  lemma RelabelDist(g: Graph, h: Graph, name: seq<nat>, u: nat, v: nat)
    requires Valid(g) && Valid(h) && Relabels(g, h, name) && u < |g| && v < |g|
    ensures Dist(g, u, v) == Dist(h, name[u], name[v])
  {
    var level := seq(|g|, w requires 0 <= w < |g| => Dist(h, name[u], name[w]));
    forall w | 0 <= w < |g|
      ensures level[w] >= -1 && (level[w] == 0 <==> w == u)
    {
      DistSelf(h, name[u]);
      if level[w] == 0 { DistZero(h, name[u], name[w]); }
    }
    forall a, b | 0 <= a < |g| && b in g[a] && level[a] >= 0
      ensures b < |g| && 0 <= level[b] <= level[a] + 1
    {
      LastStep(h, name[u], name[a], name[b]);
    }
    forall w | 0 <= w < |g| && level[w] > 0
      ensures HasLower(g, level, w)
    {
      var x := Predecessor(h, name[u], name[w]);
      assert x in name;
      var a :| 0 <= a < |name| && name[a] == x;
      assert w in g[a] && level[a] == level[w] - 1;
    }
    LevelsAreDistances(g, u, level);
  }
}
