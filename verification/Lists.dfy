/** Lists without repeats, and lists in the order of another one. */
module Lists {
  ghost predicate NoRepeats<T>(s: seq<T>) {
    forall i, j :: 0 <= i < j < |s| ==> s[i] != s[j]
  }

  function Elements<T>(s: seq<T>): set<T> {
    set x | x in s
  }

  lemma {:induction false} AsManyElements<T>(s: seq<T>)
    requires NoRepeats(s)
    ensures |Elements(s)| == |s|
    decreases |s|
  {
    if s != [] {
      var (front, last) := (s[..|s| - 1], s[|s| - 1]);
      assert s == front + [last];
      AsManyElements(front);
      assert Elements(s) == Elements(front) + {last};
    }
  }

  /** `x` stands before `y` in the list. */
  ghost predicate Before<T>(s: seq<T>, x: T, y: T) {
    exists i, j :: 0 <= i < j < |s| && s[i] == x && s[j] == y
  }

  /** The elements of `s` stand in `t` in the same order. */
  ghost predicate InOrderOf<T>(s: seq<T>, t: seq<T>) {
    forall i, j :: 0 <= i < j < |s| ==> Before(t, s[i], s[j])
  }

  lemma SameOrder<T>(s: seq<T>, t: seq<T>, u: seq<T>)
    requires InOrderOf(s, t) && InOrderOf(t, u)
    ensures InOrderOf(s, u)
  {
    forall i, j | 0 <= i < j < |s|
      ensures Before(u, s[i], s[j])
    {
      assert Before(t, s[i], s[j]);
      var a, b :| 0 <= a < b < |t| && t[a] == s[i] && t[b] == s[j];
      assert Before(u, t[a], t[b]);
    }
  }

  lemma InOwnOrder<T>(s: seq<T>)
    ensures InOrderOf(s, s)
  {
  }

  /** Taking an element out leaves the others in order. */
  lemma OrderWithout<T>(s: seq<T>, at: nat)
    requires at < |s|
    ensures InOrderOf(s[..at] + s[at + 1..], s)
  {
    var r := s[..at] + s[at + 1..];
    forall i, j | 0 <= i < j < |r|
      ensures Before(s, r[i], r[j])
    {
      assert r[i] == s[if i < at then i else i + 1] && r[j] == s[if j < at then j else j + 1];
    }
  }

  /** An element appended to both lists, or only to the longer one. */
  lemma OrderWithLast<T>(s: seq<T>, t: seq<T>, x: T)
    requires InOrderOf(s, t) && forall y :: y in s ==> y in t
    ensures InOrderOf(s, t + [x]) && InOrderOf(s + [x], t + [x])
  {
    var u := t + [x];
    assert forall k :: 0 <= k < |t| ==> u[k] == t[k];
    forall i, j | 0 <= i < j < |s|
      ensures Before(u, s[i], s[j])
    {
      assert Before(t, s[i], s[j]);
      var a, b :| 0 <= a < b < |t| && t[a] == s[i] && t[b] == s[j];
      assert u[a] == s[i] && u[b] == s[j];
    }
    forall i | 0 <= i < |s|
      ensures Before(u, s[i], x)
    {
      assert s[i] in t;
      var a :| 0 <= a < |t| && t[a] == s[i];
      assert u[a] == s[i] && u[|t|] == x;
    }
    assert forall i :: 0 <= i < |s| ==> (s + [x])[i] == s[i];
  }

  /** Lists without repeats that have the same elements are equally long. */
  lemma SameLength<T>(a: seq<T>, b: seq<T>)
    requires NoRepeats(a) && NoRepeats(b)
    requires forall x :: x in a <==> x in b
    ensures |a| == |b|
  {
    AsManyElements(a);
    AsManyElements(b);
    assert Elements(a) == Elements(b);
  }
}
