/** The few facts about products, quotients and remainders that mixed-radix numbering needs. */
module Arith {
  function AtLeastOne(n: nat): nat {
    if n > 1 then n else 1
  }

  lemma MulMono(a: int, b: int, m: nat)
    requires a <= b
    ensures a * m <= b * m
  {
  }

  lemma SmallMultiple(x: int, m: nat)
    requires -(m as int) < x * m < m
    ensures x == 0
  {
  }

  lemma DivMix(q: nat, r: nat, m: nat)
    requires r < m
    ensures (q * m + r) / m == q && (q * m + r) % m == r
  {
    var n := q * m + r;
    var d := n / m;
    assert n == d * m + n % m;
    assert (q - d) * m == q * m - d * m;
    SmallMultiple(q - d, m);
  }

  lemma MixBound(q: nat, r: nat, n: nat, m: nat)
    requires q < n && r < m
    ensures q * m + r < n * m
  {
    MulMono(q + 1, n, m);
    assert (q + 1) * m == q * m + m;
  }

  lemma Recompose(i: nat, m: nat)
    requires m > 0
    ensures i == i / m * m + i % m
  {
  }

  lemma Unmix(i: nat, n: nat, m: nat)
    requires i < n * m
    ensures m > 0 && i / m < n && i % m < m && i == i / m * m + i % m
  {
  }

  // ---------- three digits ----------

  /** The number with digits `p`, `e`, `x`; the last two range below `half`. */
  function Index(half: nat, p: nat, e: nat, x: nat): nat {
    (p * half + e) * half + x
  }

  function First(half: nat, i: nat): nat
    requires half > 0
  {
    i / half / half
  }

  function Second(half: nat, i: nat): nat
    requires half > 0
  {
    i / half % half
  }

  function Third(half: nat, i: nat): nat
    requires half > 0
  {
    i % half
  }

  lemma Digits(half: nat, p: nat, e: nat, x: nat)
    requires p < 2 * half && e < half && x < half
    ensures var i := Index(half, p, e, x);
            i < 2 * half * half * half && First(half, i) == p && Second(half, i) == e && Third(half, i) == x
            && Index(half, p, e, x + 1) == i + 1
  {
    MixBound(p, e, 2 * half, half);
    MixBound(p * half + e, x, 2 * half * half, half);
    DivMix(p * half + e, x, half);
    DivMix(p, e, half);
  }

  lemma FromDigits(half: nat, i: nat)
    requires i < 2 * half * half * half
    ensures half > 0 && First(half, i) < 2 * half && Second(half, i) < half && Third(half, i) < half
    ensures Index(half, First(half, i), Second(half, i), Third(half, i)) == i
  {
  }

  lemma Carry(half: nat, p: nat, e: nat)
    ensures Index(half, 0, 0, 0) == 0
    ensures Index(half, p, e, half) == Index(half, p, e + 1, 0)
    ensures Index(half, p, half, 0) == Index(half, p + 1, 0, 0)
    ensures Index(half, 2 * half, 0, 0) == 2 * half * half * half
  {
  }
}
