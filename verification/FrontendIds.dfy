/**
  The string ids of the browser's topology and their translation to and from the simulator's numbers
  (frontend/app/page.tsx): `pod-1-tor-0`, `core-3` and so on for the fat tree, `host-1-2`, `tor-0`,
  `agg-1` for two layers. The regular expressions are all literals and `\d+` separated by dashes, so
  matching is modelled as splitting at the dashes; `\d+` stands for any non-empty run of digits,
  leading zeros included.
*/
module FrontendIds {
  import opened Arith
  import opened Text
  import opened DcnTopo

  // ---------- fat tree ----------

  /** Number of hosts for k = 2 * half. */
  function FatHosts(half: Half): nat {
    var k := 2 * half;
    k * k * k / 4
  }

  /** Number of ToR switches, and of aggregation switches. */
  function FatLayer(half: Half): nat {
    var k := 2 * half;
    k * k / 2
  }

  /** Hosts per pod. */
  function Square(half: Half): Half {
    MulMono(1, half, half);
    half * half
  }

  /** Simulator id to string id, for k = 2 * half. */
  function NumericToSvgId(num: nat, half: Half): string {
    hide FatHosts, FatLayer, Square;
    var numHosts := FatHosts(half);
    var numTor := FatLayer(half);
    var numAgg := FatLayer(half);
    if num < numHosts then
      var rem := num % Square(half);
      HostName(num / Square(half), rem / half, rem % half)
    else if num < numHosts + numTor then
      PodName((num - numHosts) / half, "tor", (num - numHosts) % half)
    else if num < numHosts + numTor + numAgg then
      PodName((num - numHosts - numTor) / half, "agg", (num - numHosts - numTor) % half)
    else
      "core" + "-" + Decimal(num - numHosts - numTor - numAgg)
  }

  function HostName(pod: nat, tor: nat, pos: nat): string {
    "pod" + "-" + Decimal(pod) + "-" + "host" + "-" + Decimal(tor) + "-" + Decimal(pos)
  }

  function PodName(pod: nat, layer: string, idx: nat): string {
    "pod" + "-" + Decimal(pod) + "-" + layer + "-" + Decimal(idx)
  }

  /** String id to simulator id; -1 when no pattern matches. */
  function SvgIdToNumeric(id: string, half: Half): int {
    var numHosts := FatHosts(half);
    var numTor := FatLayer(half);
    var numAgg := FatLayer(half);
    var p := Split(id, '-');
    if MatchesCore(p) then numHosts + numTor + numAgg + Value(p[1])
    else if MatchesPod(p, "agg") then numHosts + numTor + Value(p[1]) * half + Value(p[3])
    else if MatchesPod(p, "tor") then numHosts + Value(p[1]) * half + Value(p[3])
    else if MatchesHost(p) then Value(p[1]) * half * half + Value(p[3]) * half + Value(p[4])
    else -1
  }

  predicate MatchesCore(p: seq<string>) {
    |p| == 2 && p[0] == "core" && IsNumeral(p[1])
  }

  predicate MatchesPod(p: seq<string>, layer: string) {
    |p| == 4 && p[0] == "pod" && IsNumeral(p[1]) && p[2] == layer && IsNumeral(p[3])
  }

  predicate MatchesHost(p: seq<string>) {
    |p| == 5 && p[0] == "pod" && IsNumeral(p[1]) && p[2] == "host" && IsNumeral(p[3]) && IsNumeral(p[4])
  }

  /** The string id the browser's builder gives to a position. */
  function Name(half: Half, c: Place): string {
    match c
    case HostAt(p, e, h) => HostName(p, e, h)
    case TorAt(p, e) => PodName(p, "tor", e)
    case AggAt(p, a) => PodName(p, "agg", a)
    case CoreAt(g, j) => "core" + "-" + Decimal(g * half + j)
  }

  lemma PodNameSplits(pod: nat, layer: string, idx: nat)
    requires '-' !in layer
    ensures var p := Split(PodName(pod, layer, idx), '-');
            p == ["pod", Decimal(pod), layer, Decimal(idx)]
            && IsNumeral(p[1]) && Value(p[1]) == pod && IsNumeral(p[3]) && Value(p[3]) == idx
  {
    DecimalRoundTrip(pod);
    DecimalRoundTrip(idx);
    SplitFour("pod", Decimal(pod), layer, Decimal(idx));
  }

  lemma HostNameSplits(pod: nat, tor: nat, pos: nat)
    ensures var p := Split(HostName(pod, tor, pos), '-');
            p == ["pod", Decimal(pod), "host", Decimal(tor), Decimal(pos)]
            && IsNumeral(p[1]) && Value(p[1]) == pod && IsNumeral(p[3]) && Value(p[3]) == tor
            && IsNumeral(p[4]) && Value(p[4]) == pos
  {
    DecimalRoundTrip(pod);
    DecimalRoundTrip(tor);
    DecimalRoundTrip(pos);
    SplitFive("pod", Decimal(pod), "host", Decimal(tor), Decimal(pos));
  }

  lemma CoreNameSplits(idx: nat)
    ensures var p := Split("core" + "-" + Decimal(idx), '-');
            p == ["core", Decimal(idx)] && IsNumeral(p[1]) && Value(p[1]) == idx
  {
    DecimalRoundTrip(idx);
    SplitPair("core", Decimal(idx));
  }

  /** The name of a position is read back as the simulator's id of that position. */
  lemma NameToId(t: DcnTopo, half: Half, c: Place)
    requires IsFatTree(t, half)
    ensures SvgIdToNumeric(Name(half, c), half) == IdOf(t, c)
  {
    hide Split, Decimal, IsNumeral, Value, HostName, PodName;
    match c
    case HostAt(p, e, h) => HostNameSplits(p, e, h);
    case TorAt(p, e) => PodNameSplits(p, "tor", e);
    case AggAt(p, a) => PodNameSplits(p, "agg", a);
    case CoreAt(g, j) => CoreNameSplits(g * half + j);
  }

  lemma HostDigits(half: Half, n: nat)
    ensures n / (half * half) == First(half, n)
    ensures n % (half * half) / half == Second(half, n) && n % (half * half) % half == Third(half, n)
  {
    var q := n / half;
    var (p, e, x) := (First(half, n), Second(half, n), Third(half, n));
    assert q == p * half + e && n == q * half + x;
    MixBound(e, x, half, half);
    assert n == p * (half * half) + (e * half + x);
    DivMix(p, e * half + x, half * half);
    DivMix(e, x, half);
  }

  /** The id of a position is written as its name. */
  lemma IdToName(t: DcnTopo, half: Half, c: Place)
    requires IsFatTree(t, half) && InTree(half, c)
    ensures NumericToSvgId(IdOf(t, c), half) == Name(half, c)
  {
    hide First, Second, Third, HostName, PodName, Decimal, InTree;
    IdThenPlace(t, half, c);
    HostDigits(half, IdOf(t, c));
    if c.CoreAt? {
      assert t.CoreId(c.group, c.idx) == t.numHosts + t.numTor + t.numAgg + (c.group * half + c.idx);
    }
  }

  /** Number to string to number, for every node of every fat tree. */
  lemma NumericRoundTrip(t: DcnTopo, half: Half, n: nat)
    requires IsFatTree(t, half) && n < t.total
    ensures SvgIdToNumeric(NumericToSvgId(n, half), half) == n
  {
    hide *;
    PlaceThenId(t, half, n);
    IdToName(t, half, PlaceOf(t, half, n));
    NameToId(t, half, PlaceOf(t, half, n));
  }

  /** String to number to string, for every id that the builder emits. */
  lemma SvgRoundTrip(t: DcnTopo, half: Half, c: Place)
    requires IsFatTree(t, half) && InTree(half, c)
    ensures SvgIdToNumeric(Name(half, c), half) >= 0
    ensures NumericToSvgId(SvgIdToNumeric(Name(half, c), half), half) == Name(half, c)
  {
    hide *;
    NameToId(t, half, c);
    IdToName(t, half, c);
  }

  /** The four patterns exclude one another: no id matches two of them. */
  lemma PatternsExclusive(p: seq<string>)
    ensures !(MatchesCore(p) && (MatchesPod(p, "agg") || MatchesPod(p, "tor") || MatchesHost(p)))
    ensures !(MatchesPod(p, "agg") && (MatchesPod(p, "tor") || MatchesHost(p)))
    ensures !(MatchesPod(p, "tor") && MatchesHost(p))
  {
  }

  // ---------- two layers ----------

  function LeafHostName(tor: nat, pos: nat): string {
    "host" + "-" + Decimal(tor) + "-" + Decimal(pos)
  }

  /** Simulator id to string id (`resolveNumericNodeId`), for `tors` ToRs of `servers` hosts. */
  function TwoTierName(tors: nat, servers: nat, num: nat): string {
    var hosts := servers * tors;
    if num < hosts then assert servers > 0; LeafHostName(num / servers, num % servers)
    else if num < hosts + tors then "tor" + "-" + Decimal(num - hosts)
    else "agg" + "-" + Decimal(num - hosts - tors)
  }

  /** String id to simulator id (`resolveSvgNodeId`); -1 when no pattern matches. */
  function TwoTierNumeric(tors: nat, servers: nat, id: string): int {
    var p := Split(id, '-');
    if |p| == 3 && p[0] == "host" && IsNumeral(p[1]) && IsNumeral(p[2]) then Value(p[1]) * servers + Value(p[2])
    else if |p| == 2 && p[0] == "tor" && IsNumeral(p[1]) then tors * servers + Value(p[1])
    else if |p| == 2 && p[0] == "agg" && IsNumeral(p[1]) then tors * servers + tors + Value(p[1])
    else -1
  }

  lemma LeafHostNumeric(tors: nat, servers: nat, tor: nat, pos: nat)
    ensures TwoTierNumeric(tors, servers, LeafHostName(tor, pos)) == tor * servers + pos
  {
    DecimalRoundTrip(tor);
    DecimalRoundTrip(pos);
    SplitTriple("host", Decimal(tor), Decimal(pos));
  }

  lemma SwitchNumeric(tors: nat, servers: nat, idx: nat)
    ensures TwoTierNumeric(tors, servers, "tor" + "-" + Decimal(idx)) == tors * servers + idx
    ensures TwoTierNumeric(tors, servers, "agg" + "-" + Decimal(idx)) == tors * servers + tors + idx
  {
    DecimalRoundTrip(idx);
    SplitPair("tor", Decimal(idx));
    SplitPair("agg", Decimal(idx));
    assert "tor"[0] == 't' && "agg"[0] == 'a';
  }

  /** Number to string to number, for every node number, whatever the counts. */
  lemma TwoTierRoundTrip(tors: nat, servers: nat, num: nat)
    ensures TwoTierNumeric(tors, servers, TwoTierName(tors, servers, num)) == num
  {
    hide TwoTierNumeric, LeafHostName, Decimal;
    var hosts := servers * tors;
    if num < hosts {
      assert servers > 0;
      Recompose(num, servers);
      LeafHostNumeric(tors, servers, num / servers, num % servers);
    } else {
      SwitchNumeric(tors, servers, if num < hosts + tors then num - hosts else num - hosts - tors);
    }
  }
}
