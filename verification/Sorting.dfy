/** Stable sorting by a key, as JavaScript's `sort` with a difference of keys does it. */
module Sorting {
  ghost predicate SortedBy<T(!new)>(key: T -> real, s: seq<T>) {
    forall i, j :: 0 <= i < j < |s| ==> key(s[i]) <= key(s[j])
  }

  /** The elements of `s` with this key, in their order. */
  function WithKey<T>(key: T -> real, s: seq<T>, k: real): seq<T> {
    if s == [] then []
    else WithKey(key, s[..|s| - 1], k) + if key(s[|s| - 1]) == k then [s[|s| - 1]] else []
  }

  /** `r` is `s` in non-decreasing order of the key, elements with equal keys staying in their order. */
  ghost predicate IsSorting<T(!new)>(key: T -> real, s: seq<T>, r: seq<T>) {
    SortedBy(key, r) && multiset(r) == multiset(s) && forall k :: WithKey(key, r, k) == WithKey(key, s, k)
  }

  lemma {:induction false} WithKeyConcat<T>(key: T -> real, a: seq<T>, b: seq<T>, k: real)
    ensures WithKey(key, a + b, k) == WithKey(key, a, k) + WithKey(key, b, k)
    decreases |b|
  {
    if b == [] {
      assert a + b == a;
    } else {
      assert (a + b)[..|a + b| - 1] == a + b[..|b| - 1];
      WithKeyConcat(key, a, b[..|b| - 1], k);
    }
  }

  lemma {:induction false} WithoutKey<T>(key: T -> real, s: seq<T>, k: real)
    requires forall i :: 0 <= i < |s| ==> key(s[i]) != k
    ensures WithKey(key, s, k) == []
    decreases |s|
  {
    if s != [] { WithoutKey(key, s[..|s| - 1], k); }
  }

  /** An element inserted behind its equals comes last among them. */
  lemma InsertedStable<T(!new)>(key: T -> real, s: seq<T>, i: nat, x: T, k: real)
    requires SortedBy(key, s) && i <= |s| && (i < |s| ==> key(x) < key(s[i]))
    ensures WithKey(key, s[..i] + [x] + s[i..], k) == WithKey(key, s, k) + if key(x) == k then [x] else []
  {
    assert s == s[..i] + s[i..];
    WithKeyConcat(key, s[..i], s[i..], k);
    WithKeyConcat(key, s[..i] + [x], s[i..], k);
    assert (s[..i] + [x])[..i] == s[..i];
    if key(x) == k { WithoutKey(key, s[i..], k); }
  }

  lemma WithKeyLast<T>(key: T -> real, s: seq<T>, x: T, k: real)
    ensures WithKey(key, s + [x], k) == WithKey(key, s, k) + if key(x) == k then [x] else []
  {
    assert (s + [x])[..|s|] == s;
  }

  lemma SameMembers<T>(a: seq<T>, b: seq<T>)
    requires multiset(a) == multiset(b)
    ensures |a| == |b| && forall x :: x in a <==> x in b
  {
    assert |multiset(a)| == |multiset(b)|;
    forall x
      ensures x in a <==> x in b
    {
      assert x in a <==> x in multiset(a);
      assert x in b <==> x in multiset(b);
    }
  }

  lemma SameSize<T>(a: seq<T>, b: seq<T>)
    requires multiset(a) == multiset(b)
    ensures |a| == |b|
  {
    SameMembers(a, b);
  }

  lemma SameLast<T(!new)>(key: T -> real, p: seq<T>, x: T, q: seq<T>, y: T)
    requires SortedBy(key, p + [x]) && SortedBy(key, q + [y])
    requires multiset(p + [x]) == multiset(q + [y])
    requires WithKey(key, p + [x], key(x)) == WithKey(key, q + [y], key(x))
    ensures x == y
  {
    hide WithKey;
    var (a, b) := (p + [x], q + [y]);
    SameMembers(a, b);
    assert a[|p|] == x && b[|q|] == y;
    assert x in b && y in a;
    var i :| 0 <= i < |b| && b[i] == x;
    var j :| 0 <= j < |a| && a[j] == y;
    assert key(b[i]) <= key(b[|q|]) && key(a[j]) <= key(a[|p|]);
    WithKeyLast(key, p, x, key(x));
    WithKeyLast(key, q, y, key(x));
    EqualEnds(WithKey(key, p, key(x)), x, WithKey(key, q, key(x)), y);
  }

  lemma EqualEnds<T>(a: seq<T>, x: T, b: seq<T>, y: T)
    requires a + [x] == b + [y]
    ensures a == b && x == y
  {
    assert |a + [x]| == |b + [y]|;
    assert a == (a + [x])[..|a|] && b == (b + [y])[..|a|];
    assert x == (a + [x])[|a|] && y == (b + [y])[|a|];
  }

  lemma SameFront<T>(key: T -> real, p: seq<T>, q: seq<T>, x: T, k: real)
    requires WithKey(key, p + [x], k) == WithKey(key, q + [x], k)
    ensures WithKey(key, p, k) == WithKey(key, q, k)
  {
    hide WithKey;
    WithKeyLast(key, p, x, k);
    WithKeyLast(key, q, x, k);
    var (v, w) := (WithKey(key, p, k), WithKey(key, q, k));
    if key(x) == k {
      EqualEnds(v, x, w, x);
    } else {
      assert v + [] == v && w + [] == w;
    }
  }

  lemma SameFronts<T>(key: T -> real, p: seq<T>, q: seq<T>, x: T)
    requires forall k :: WithKey(key, p + [x], k) == WithKey(key, q + [x], k)
    ensures forall k :: WithKey(key, p, k) == WithKey(key, q, k)
  {
    hide WithKey;
    forall k
      ensures WithKey(key, p, k) == WithKey(key, q, k)
    {
      assert WithKey(key, p + [x], k) == WithKey(key, q + [x], k);
      SameFront(key, p, q, x, k);
    }
  }

  /** A stable sorting is determined by what it sorts. */
  lemma {:induction false} SortingDetermined<T(!new)>(key: T -> real, a: seq<T>, b: seq<T>)
    requires SortedBy(key, a) && SortedBy(key, b) && multiset(a) == multiset(b)
    requires forall k :: WithKey(key, a, k) == WithKey(key, b, k)
    ensures a == b
    decreases |a|
  {
    SameSize(a, b);
    if a != [] {
      hide WithKey, SortedBy;
      var (p, x, q, y) := (a[..|a| - 1], a[|a| - 1], b[..|b| - 1], b[|b| - 1]);
      assert a == p + [x] && b == q + [y];
      SameLast(key, p, x, q, y);
      SameFronts(key, p, q, x);
      FrontSorted(key, p, x);
      FrontSorted(key, q, y);
      FrontPermuted(p, q, x);
      SortingDetermined(key, p, q);
    }
  }

  lemma FrontSorted<T(!new)>(key: T -> real, p: seq<T>, x: T)
    requires SortedBy(key, p + [x])
    ensures SortedBy(key, p)
  {
    assert forall i :: 0 <= i < |p| ==> (p + [x])[i] == p[i];
  }

  lemma FrontPermuted<T>(p: seq<T>, q: seq<T>, x: T)
    requires multiset(p + [x]) == multiset(q + [x])
    ensures multiset(p) == multiset(q)
  {
    assert multiset(p) == multiset(p + [x]) - multiset{x};
    assert multiset(q) == multiset(q + [x]) - multiset{x};
  }

  lemma InsertedSorted<T(!new)>(key: T -> real, s: seq<T>, i: nat, x: T)
    requires SortedBy(key, s) && i <= |s|
    requires i < |s| ==> key(x) <= key(s[i])
    requires i > 0 ==> key(s[i - 1]) <= key(x)
    ensures SortedBy(key, s[..i] + [x] + s[i..])
  {
  }

  lemma InsertedMembers<T>(s: seq<T>, i: nat, x: T)
    requires i <= |s|
    ensures multiset(s[..i] + [x] + s[i..]) == multiset(s) + multiset{x}
  {
    assert s == s[..i] + s[i..];
  }

  method Insert<T(==, !new)>(key: T -> real, s: seq<T>, x: T) returns (r: seq<T>)
    requires SortedBy(key, s)
    ensures SortedBy(key, r) && multiset(r) == multiset(s) + multiset{x}
    ensures forall k :: WithKey(key, r, k) == WithKey(key, s, k) + if key(x) == k then [x] else []
  {
    var i := |s|;
    while i > 0 && key(x) < key(s[i - 1])
      invariant 0 <= i <= |s|
      invariant i < |s| ==> key(x) < key(s[i])
    {
      i := i - 1;
    }
    InsertedSorted(key, s, i, x);
    InsertedMembers(s, i, x);
    forall k { InsertedStable(key, s, i, x, k); }
    r := s[..i] + [x] + s[i..];
  }

  method SortBy<T(==, !new)>(key: T -> real, s: seq<T>) returns (r: seq<T>)
    ensures IsSorting(key, s, r)
  {
    r := [];
    var i := 0;
    while i < |s|
      invariant 0 <= i <= |s| && SortedBy(key, r) && multiset(r) == multiset(s[..i])
      invariant forall k :: WithKey(key, r, k) == WithKey(key, s[..i], k)
    {
      assert s[..i + 1] == s[..i] + [s[i]] && s[..i + 1][..i] == s[..i];
      r := Insert(key, r, s[i]);
      i := i + 1;
    }
    assert s[..i] == s;
  }

  lemma WithoutOne<T>(s: seq<T>, i: nat)
    requires i < |s|
    ensures multiset(s[..i] + s[i + 1..]) == multiset(s) - multiset{s[i]}
  {
    assert s == s[..i] + ([s[i]] + s[i + 1..]);
  }

  lemma SortingMembers<T(!new)>(key: T -> real, s: seq<T>, r: seq<T>)
    requires IsSorting(key, s, r)
    ensures |r| == |s| && forall x :: x in r <==> x in s
  {
    SameMembers(r, s);
  }

  // ---------- sums over a list ----------

  function Sum<T>(f: T -> int, s: seq<T>): int {
    if s == [] then 0 else Sum(f, s[..|s| - 1]) + f(s[|s| - 1])
  }

  lemma {:induction false} SumConcat<T>(f: T -> int, a: seq<T>, b: seq<T>)
    ensures Sum(f, a + b) == Sum(f, a) + Sum(f, b)
    decreases |b|
  {
    if b == [] {
      assert a + b == a;
    } else {
      assert (a + b)[..|a + b| - 1] == a + b[..|b| - 1];
      SumConcat(f, a, b[..|b| - 1]);
    }
  }

  lemma SumAround<T>(f: T -> int, a: seq<T>, x: T, b: seq<T>)
    ensures Sum(f, a + ([x] + b)) == Sum(f, a + b) + f(x)
  {
    SumConcat(f, a, b);
    SumConcat(f, a, [x] + b);
    SumConcat(f, [x], b);
    assert [x][..0] == [];
  }

  lemma SumWithout<T>(f: T -> int, s: seq<T>, i: nat)
    requires i < |s|
    ensures Sum(f, s) == Sum(f, s[..i] + s[i + 1..]) + f(s[i])
  {
    var x := s[i];
    assert s == s[..i] + ([x] + s[i + 1..]);
    SumAround(f, s[..i], x, s[i + 1..]);
  }

  /** A sum does not depend on the order. */
  lemma {:induction false} SumPermuted<T>(f: T -> int, a: seq<T>, b: seq<T>)
    requires multiset(a) == multiset(b)
    ensures Sum(f, a) == Sum(f, b)
    decreases |a|
  {
    if a == [] {
      assert |multiset(a)| == |multiset(b)|;
    } else {
      var (front, x) := (a[..|a| - 1], a[|a| - 1]);
      assert a == front + [x];
      assert x in multiset(b);
      var i :| 0 <= i < |b| && b[i] == x;
      WithoutOne(b, i);
      assert multiset(front) == multiset(a) - multiset{x};
      SumPermuted(f, front, b[..i] + b[i + 1..]);
      SumWithout(f, b, i);
    }
  }
}
