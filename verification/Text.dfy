/** Decimal numerals and splitting at a separator, on strings of characters. */
module Text {
  // ---------- decimal numerals ----------

  predicate IsDigit(c: char) {
    '0' <= c <= '9'
  }

  predicate AllDigits(s: string) {
    forall i :: 0 <= i < |s| ==> IsDigit(s[i])
  }

  /** What the pattern `\d+` matches in full. */
  predicate IsNumeral(s: string) {
    s != "" && AllDigits(s)
  }

  function DigitChar(d: nat): (c: char)
    requires d < 10
    ensures IsDigit(c) && DigitValue(c) == d
  {
    ('0' as int + d) as char
  }

  function DigitValue(c: char): nat
    requires IsDigit(c)
  {
    c as int - '0' as int
  }

  /** The decimal numeral of `n`, without leading zeros. */
  function Decimal(n: nat): string {
    if n < 10 then [DigitChar(n)] else Decimal(n / 10) + [DigitChar(n % 10)]
  }

  /** The value of a string of digits. */
  function Value(s: string): nat
    requires AllDigits(s)
  {
    if s == "" then 0 else Value(s[..|s| - 1]) * 10 + DigitValue(s[|s| - 1])
  }

  lemma {:induction false} DecimalRoundTrip(n: nat)
    ensures IsNumeral(Decimal(n)) && Value(Decimal(n)) == n
    ensures n > 0 ==> Decimal(n)[0] != '0'
    decreases n
  {
    if n >= 10 {
      DecimalRoundTrip(n / 10);
      var front := Decimal(n / 10);
      assert (front + [DigitChar(n % 10)])[..|front|] == front;
    } else {
      assert [DigitChar(n)][..0] == "";
    }
  }

  /** Digits are those of the decimal system, most significant first. */
  lemma SomeNumerals()
    ensures Decimal(0) == "0" && Decimal(7) == "7" && Decimal(90) == "90" && Decimal(128) == "128"
  {
    assert Decimal(9) == "9" && Decimal(1) == "1" && Decimal(12) == "12";
  }

  lemma DecimalInjective(m: nat, n: nat)
    requires Decimal(m) == Decimal(n)
    ensures m == n
  {
    DecimalRoundTrip(m);
    DecimalRoundTrip(n);
  }

  lemma DecimalHasNo(n: nat, c: char)
    requires !IsDigit(c)
    ensures c !in Decimal(n)
  {
  }

  // ---------- splitting ----------

  /** The pieces of `s` between the separators; at least one piece. */
  function Split(s: string, sep: char): (parts: seq<string>)
    ensures |parts| >= 1
  {
    if s == "" then [""]
    else
      var rest := Split(s[1..], sep);
      if s[0] == sep then [""] + rest else [[s[0]] + rest[0]] + rest[1..]
  }

  /** A piece without separators, then a separator, then the rest. */
  lemma {:induction false} SplitAt(a: string, sep: char, b: string)
    requires sep !in a
    ensures Split(a + [sep] + b, sep) == [a] + Split(b, sep)
    decreases a
  {
    var s := a + [sep] + b;
    if a == "" {
      assert s[1..] == b;
    } else {
      assert s[1..] == a[1..] + [sep] + b;
      SplitAt(a[1..], sep, b);
      assert [a[0]] + a[1..] == a;
    }
  }

  lemma {:induction false} SplitWhole(a: string, sep: char)
    requires sep !in a
    ensures Split(a, sep) == [a]
    decreases a
  {
    if a != "" {
      SplitWhole(a[1..], sep);
      assert [a[0]] + a[1..] == a;
    }
  }

  // ---------- dash-separated names ----------

  lemma SplitPair(a: string, b: string)
    requires '-' !in a && '-' !in b
    ensures Split(a + "-" + b, '-') == [a, b]
  {
    SplitAt(a, '-', b);
    SplitWhole(b, '-');
  }

  lemma SplitTriple(a: string, b: string, c: string)
    requires '-' !in a && '-' !in b && '-' !in c
    ensures Split(a + "-" + b + "-" + c, '-') == [a, b, c]
  {
    assert a + "-" + b + "-" + c == a + "-" + (b + "-" + c);
    SplitAt(a, '-', b + "-" + c);
    SplitPair(b, c);
  }

  lemma SplitFour(a: string, b: string, c: string, d: string)
    requires '-' !in a && '-' !in b && '-' !in c && '-' !in d
    ensures Split(a + "-" + b + "-" + c + "-" + d, '-') == [a, b, c, d]
  {
    hide Split;
    SplitTriple(b, c, d);
    var rest := b + "-" + c + "-" + d;
    assert a + "-" + b + "-" + c + "-" + d == a + "-" + rest;
    SplitAt(a, '-', rest);
  }

  lemma SplitFive(a: string, b: string, c: string, d: string, e: string)
    requires '-' !in a && '-' !in b && '-' !in c && '-' !in d && '-' !in e
    ensures Split(a + "-" + b + "-" + c + "-" + d + "-" + e, '-') == [a, b, c, d, e]
  {
    hide Split;
    SplitFour(b, c, d, e);
    var rest := b + "-" + c + "-" + d + "-" + e;
    assert a + "-" + b + "-" + c + "-" + d + "-" + e == a + "-" + rest;
    SplitAt(a, '-', rest);
  }

  /** The name of a directed link: two numerals joined by a dash. */
  function LinkName(u: nat, v: nat): string {
    Decimal(u) + "-" + Decimal(v)
  }

  /** A name is read back as its two ends, the first one first. */
  lemma LinkNameReadsBack(u: nat, v: nat)
    ensures var p := Split(LinkName(u, v), '-');
      |p| == 2 && IsNumeral(p[0]) && IsNumeral(p[1]) && Value(p[0]) == u && Value(p[1]) == v
  {
    DecimalHasNo(u, '-');
    DecimalHasNo(v, '-');
    SplitPair(Decimal(u), Decimal(v));
    DecimalRoundTrip(u);
    DecimalRoundTrip(v);
  }

  lemma LinkNameInjective(u: nat, v: nat, x: nat, y: nat)
    ensures LinkName(u, v) == LinkName(x, y) <==> u == x && v == y
  {
    DecimalHasNo(u, '-');
    DecimalHasNo(v, '-');
    DecimalHasNo(x, '-');
    DecimalHasNo(y, '-');
    SplitPair(Decimal(u), Decimal(v));
    SplitPair(Decimal(x), Decimal(y));
    if LinkName(u, v) == LinkName(x, y) {
      DecimalInjective(u, x);
      DecimalInjective(v, y);
    }
  }
}
