/**
  The order in which the Python bindings load the simulator's libraries (`sort_to_dependencies` in
  ns3/bindings/python/ns__init__.py): layer by layer, each layer the modules whose dependencies have all
  been placed. The recursion goes one level deeper per layer and Python bounds its depth, so a dependency
  cycle, or a dependency outside the map, ends in a recursion error.
*/
module ModuleOrder {
  import opened Lists

  type Dependencies = map<string, seq<string>>

  // ---------- the specification ----------

  predicate AllIn(s: seq<string>, placed: set<string>) {
    forall i :: 0 <= i < |s| ==> s[i] in placed
  }

  /** The modules that can be placed within `n` layers. */
  ghost function Layers(deps: Dependencies, n: nat): set<string> {
    if n == 0 then {} else set m | m in deps && AllIn(deps[m], Layers(deps, n - 1))
  }

  /** Each module of a chain depends on the next; all have entries in the map. */
  ghost predicate IsChain(deps: Dependencies, c: seq<string>) {
    && (forall i :: 0 <= i < |c| ==> c[i] in deps)
    && (forall i :: 0 <= i < |c| - 1 ==> c[i + 1] in deps[c[i]])
  }

  /** The longest chain of dependencies that starts at `m` has `n` links. */
  ghost predicate LongestChain(deps: Dependencies, m: string, n: nat) {
    && (exists c :: IsChain(deps, c) && |c| == n + 1 && c[0] == m)
    && (forall c :: IsChain(deps, c) && c != [] && c[0] == m ==> |c| <= n + 1)
  }

  /** Every dependency has an entry of its own. */
  predicate Closed(deps: Dependencies) {
    forall m :: m in deps ==> AllIn(deps[m], deps.Keys)
  }

  function Flatten(steps: seq<seq<string>>): seq<string> {
    if steps == [] then [] else Flatten(steps[..|steps| - 1]) + steps[|steps| - 1]
  }

  /** Each module comes after all its dependencies. */
  ghost predicate InDependencyOrder(deps: Dependencies, s: seq<string>) {
    forall i, d :: 0 <= i < |s| && s[i] in deps && d in deps[s[i]] ==> d in s[..i]
  }

  lemma {:induction false} LayersGrow(deps: Dependencies, n: nat)
    ensures Layers(deps, n) <= Layers(deps, n + 1) <= deps.Keys
    decreases n
  {
    if n > 0 { LayersGrow(deps, n - 1); }
  }

  lemma {:induction false} LayersMonotone(deps: Dependencies, m: nat, n: nat)
    requires m <= n
    ensures Layers(deps, m) <= Layers(deps, n)
    decreases n
  {
    if m < n {
      LayersMonotone(deps, m, n - 1);
      LayersGrow(deps, n - 1);
    }
  }

  // ---------- layers and chains ----------

  /** A chain from a module of the first `n` layers has at most `n` modules. */
  lemma {:induction false} ChainBound(deps: Dependencies, c: seq<string>, n: nat)
    requires IsChain(deps, c) && c != [] && c[0] in Layers(deps, n)
    ensures |c| <= n
    decreases n
  {
    if |c| > 1 {
      assert c[1] in deps[c[0]];
      ChainBound(deps, c[1..], n - 1);
    }
  }

  /** Some dependency keeps a module out of layer `n`. */
  lemma Obstacle(deps: Dependencies, m: string, n: nat) returns (d: string)
    requires n > 0 && m in deps && m !in Layers(deps, n)
    requires Closed(deps) || m in Layers(deps, n + 1)
    ensures d in deps[m] && d in deps && d !in Layers(deps, n - 1) && (Closed(deps) || d in Layers(deps, n))
  {
    var i :| 0 <= i < |deps[m]| && deps[m][i] !in Layers(deps, n - 1);
    d := deps[m][i];
    LayersGrow(deps, n);
  }

  /** A module outside the first `n` layers whose dependencies are known starts a chain of `n + 1` modules. */
  lemma {:induction false} ChainExists(deps: Dependencies, m: string, n: nat) returns (c: seq<string>)
    requires m in deps && m !in Layers(deps, n)
    requires Closed(deps) || m in Layers(deps, n + 1)
    ensures IsChain(deps, c) && |c| == n + 1 && c[0] == m
    decreases n
  {
    if n == 0 {
      c := [m];
    } else {
      hide Layers, Closed, IsChain;
      var d := Obstacle(deps, m, n);
      var rest := ChainExists(deps, d, n - 1);
      c := [m] + rest;
      ChainGrows(deps, m, rest);
    }
  }

  lemma ChainGrows(deps: Dependencies, m: string, rest: seq<string>)
    requires m in deps && rest != [] && IsChain(deps, rest) && rest[0] in deps[m]
    ensures IsChain(deps, [m] + rest)
  {
  }

  /** A module's layer is the length of its longest dependency chain. */
  lemma LayerIsLongestChain(deps: Dependencies, m: string, n: nat)
    requires m in Layers(deps, n + 1) && m !in Layers(deps, n)
    ensures LongestChain(deps, m, n)
  {
    LayersGrow(deps, n);
    var c := ChainExists(deps, m, n);
    forall c | IsChain(deps, c) && c != [] && c[0] == m
      ensures |c| <= n + 1
    {
      ChainBound(deps, c, n + 1);
    }
  }

  /** All modules can be placed within `n` layers exactly when the map is closed and no chain has more than `n` modules. */
  lemma PlaceableIffShortChains(deps: Dependencies, n: nat)
    ensures deps.Keys <= Layers(deps, n) <==> Closed(deps) && forall c :: IsChain(deps, c) ==> |c| <= n
  {
    if deps.Keys <= Layers(deps, n) {
      LayersGrow(deps, n);
      if n > 0 { LayersGrow(deps, n - 1); }
      forall c | IsChain(deps, c)
        ensures |c| <= n
      {
        if c != [] { ChainBound(deps, c, n); }
      }
    }
    if Closed(deps) && (forall c :: IsChain(deps, c) ==> |c| <= n) {
      forall m | m in deps
        ensures m in Layers(deps, n)
      {
        if m !in Layers(deps, n) {
          var c := ChainExists(deps, m, n);
        }
      }
    }
  }

  /** A module that depends on itself, directly or through others, is in no layer: chains around the cycle never end. */
  lemma {:induction false} CycleIsNeverPlaced(deps: Dependencies, cycle: seq<string>, i: nat, n: nat)
    requires IsChain(deps, cycle) && i < |cycle| && cycle[0] in deps[cycle[|cycle| - 1]]
    ensures cycle[i] !in Layers(deps, n)
    decreases n
  {
    if n > 0 {
      var next := if i + 1 < |cycle| then i + 1 else 0;
      assert cycle[next] in deps[cycle[i]];
      CycleIsNeverPlaced(deps, cycle, next, n - 1);
    }
  }

  /** No chain ends in a module that depends on the chain's first one. */
  ghost predicate Acyclic(deps: Dependencies) {
    forall c :: IsChain(deps, c) && c != [] ==> c[0] !in deps[c[|c| - 1]]
  }

  /** Without cycles no module occurs twice on a chain. */
  lemma ChainWithoutRepeats(deps: Dependencies, c: seq<string>)
    requires Acyclic(deps) && IsChain(deps, c)
    ensures NoRepeats(c) && |c| <= |deps|
  {
    forall i, j | 0 <= i < j < |c|
      ensures c[i] != c[j]
    {
      var part := c[i..j];
      assert IsChain(deps, part);
      assert part[0] == c[i] && part[|part| - 1] == c[j - 1] && c[j - 1 + 1] in deps[c[j - 1]];
    }
    AsManyElements(c);
    Included(Elements(c), deps.Keys);
  }

  lemma {:induction false} Included(a: set<string>, b: set<string>)
    requires a <= b
    ensures |a| <= |b|
    decreases |a|
  {
    if x :| x in a { Included(a - {x}, b - {x}); }
  }

  /** Going round a cycle, one chain after another. */
  lemma {:induction false} GoRound(deps: Dependencies, cycle: seq<string>, n: nat) returns (c: seq<string>)
    requires IsChain(deps, cycle) && cycle != [] && cycle[0] in deps[cycle[|cycle| - 1]]
    ensures IsChain(deps, c) && |c| > n && c[0] == cycle[0]
    decreases n
  {
    if n == 0 {
      c := cycle;
    } else {
      var rest := GoRound(deps, cycle, n - 1);
      c := cycle + rest;
      assert forall i :: 0 <= i < |c| - 1 ==> c[i + 1] in deps[c[i]];
    }
  }

  /** A map is acyclic exactly when no chain has more modules than there are, or than any larger number. */
  lemma AcyclicIffShortChains(deps: Dependencies, n: nat)
    requires n >= |deps|
    ensures Acyclic(deps) <==> forall c :: IsChain(deps, c) ==> |c| <= n
  {
    if Acyclic(deps) {
      forall c | IsChain(deps, c)
        ensures |c| <= n
      {
        ChainWithoutRepeats(deps, c);
      }
    } else {
      var cycle :| IsChain(deps, cycle) && cycle != [] && cycle[0] in deps[cycle[|cycle| - 1]];
      var c := GoRound(deps, cycle, n);
    }
  }

  // ---------- the code ----------

  /** The modules of `pending`, in that order, all of whose dependencies are in `current`. */
  function Ready(deps: Dependencies, pending: seq<string>, current: seq<string>): seq<string>
    requires forall i :: 0 <= i < |pending| ==> pending[i] in deps
  {
    if pending == [] then []
    else
      var m := pending[|pending| - 1];
      Ready(deps, pending[..|pending| - 1], current) + if forall i :: 0 <= i < |deps[m]| ==> deps[m][i] in current then [m] else []
  }

  lemma {:induction false} ReadyMembers(deps: Dependencies, pending: seq<string>, current: seq<string>)
    requires forall i :: 0 <= i < |pending| ==> pending[i] in deps
    ensures forall m :: m in Ready(deps, pending, current) <==> m in pending && forall i :: 0 <= i < |deps[m]| ==> deps[m][i] in current
    ensures NoRepeats(pending) ==> NoRepeats(Ready(deps, pending, current))
    decreases |pending|
  {
    if pending != [] {
      var (front, last) := (pending[..|pending| - 1], pending[|pending| - 1]);
      assert pending == front + [last];
      ReadyMembers(deps, front, current);
      var r := Ready(deps, front, current);
    }
  }

  /** They stand in the order in which they are pending. */
  lemma {:induction false} ReadyInOrder(deps: Dependencies, pending: seq<string>, current: seq<string>)
    requires forall i :: 0 <= i < |pending| ==> pending[i] in deps
    ensures InOrderOf(Ready(deps, pending, current), pending)
    decreases |pending|
  {
    hide InOrderOf;
    if pending == [] {
      InOwnOrder(pending);
    } else {
      var (front, last) := (pending[..|pending| - 1], pending[|pending| - 1]);
      assert pending == front + [last];
      ReadyInOrder(deps, front, current);
      ReadyMembers(deps, front, current);
      var r := Ready(deps, front, current);
      OrderWithLast(r, front, last);
      assert r + [] == r;
    }
  }

  method ModulesThatCanBeLoaded(deps: Dependencies, pending: seq<string>, current: seq<string>) returns (modules: seq<string>)
    requires forall i :: 0 <= i < |pending| ==> pending[i] in deps
    ensures modules == Ready(deps, pending, current) && InOrderOf(modules, pending)
  {
    hide InOrderOf;
    ReadyInOrder(deps, pending, current);
    modules := [];
    var i := 0;
    while i < |pending|
      invariant 0 <= i <= |pending| && modules == Ready(deps, pending[..i], current)
    {
      assert pending[..i + 1][..i] == pending[..i];
      var pendingModule := pending[i];
      var dependencies := deps[pendingModule];
      var canBeLoaded := true;
      var j := 0;
      while j < |dependencies|
        invariant 0 <= j <= |dependencies|
        invariant canBeLoaded <==> forall k :: 0 <= k < j ==> dependencies[k] in current
      {
        if dependencies[j] !in current {
          canBeLoaded := false;
          break;
        }
        j := j + 1;
      }
      if canBeLoaded {
        modules := modules + [pendingModule];
      }
      i := i + 1;
    }
    assert pending[..i] == pending;
  }

  /** The lists that `dependency_order` changes in place. */
  class Sorter {
    const moduleDependencies: Dependencies
    /** The order in which the modules were given. */
    ghost const keys: seq<string>
    var pendingModules: seq<string>
    var currentModules: seq<string>
    var steps: seq<seq<string>>

    /** `n` layers have been placed: the current modules are those layers, in dependency order, and the
        pending ones are the rest. Within a layer, and among the pending ones, the given order is kept. */
    ghost predicate Placed(n: nat)
      reads this
    {
      && |steps| == n && currentModules == Flatten(steps)
      && NoRepeats(pendingModules) && NoRepeats(currentModules)
      && Elements(currentModules) == Layers(moduleDependencies, n)
      && Elements(pendingModules) == moduleDependencies.Keys - Layers(moduleDependencies, n)
      && InDependencyOrder(moduleDependencies, currentModules)
      && InOrderOf(pendingModules, keys)
      && forall k :: 0 <= k < n ==>
           Elements(steps[k]) == Layers(moduleDependencies, k + 1) - Layers(moduleDependencies, k) && InOrderOf(steps[k], keys)
    }

    constructor (deps: Dependencies, keys: seq<string>)
      requires NoRepeats(keys) && Elements(keys) == deps.Keys
      ensures moduleDependencies == deps && this.keys == keys && Placed(0)
    {
      moduleDependencies, this.keys := deps, keys;
      pendingModules, currentModules, steps := keys, [], [];
    }

    /** One layer: every module that can be loaded moves from the pending to the current list. */
    method PlaceLayer(stepNumber: nat)
      requires Placed(stepNumber)
      modifies this
      ensures Placed(stepNumber + 1)
    {
      hide Layers, InDependencyOrder, InOrderOf;
      PendingHaveEntries(moduleDependencies, pendingModules, stepNumber);
      var modules := ModulesThatCanBeLoaded(moduleDependencies, pendingModules, currentModules);
      ReadyMembers(moduleDependencies, pendingModules, currentModules);
      LayerPlaced(moduleDependencies, stepNumber, currentModules, pendingModules, modules);
      assert forall m :: m in modules ==> m in pendingModules;
      SameOrder(modules, pendingModules, keys);
      ghost var done := steps;
      ghost var wasPending := pendingModules;
      steps := steps + [[]];
      MoveAll(stepNumber, modules);
      SameOrder(pendingModules, wasPending, keys);
      assert steps[..stepNumber] == done;
      assert forall k :: 0 <= k < stepNumber ==> steps[k] == done[k];
    }

    /** The loop of one layer over the modules found. */
    method MoveAll(stepNumber: nat, modules: seq<string>)
      requires |steps| == stepNumber + 1 && steps[stepNumber] == []
      requires NoRepeats(pendingModules) && NoRepeats(modules) && forall m :: m in modules ==> m in pendingModules
      modifies this
      ensures steps == old(steps)[stepNumber := modules] && currentModules == old(currentModules) + modules
      ensures NoRepeats(pendingModules) && Elements(pendingModules) == Elements(old(pendingModules)) - Elements(modules)
      ensures InOrderOf(pendingModules, old(pendingModules))
    {
      hide InOrderOf;
      InOwnOrder(pendingModules);
      var i := 0;
      while i < |modules|
        invariant 0 <= i <= |modules|
        invariant steps == old(steps)[stepNumber := modules[..i]] && currentModules == old(currentModules) + modules[..i]
        invariant NoRepeats(pendingModules) && Elements(pendingModules) == Elements(old(pendingModules)) - Elements(modules[..i])
        invariant InOrderOf(pendingModules, old(pendingModules))
      {
        var m := modules[i];
        assert modules[..i + 1] == modules[..i] + [m];
        NotYet(modules, i);
        assert m in old(pendingModules) && m in Elements(pendingModules);
        steps := steps[stepNumber := steps[stepNumber] + [m]];
        var at := IndexOf(pendingModules, m);
        RemoveAt(pendingModules, at);
        OrderWithout(pendingModules, at);
        SameOrder(pendingModules[..at] + pendingModules[at + 1..], pendingModules, old(pendingModules));
        pendingModules := pendingModules[..at] + pendingModules[at + 1..];
        currentModules := currentModules + [m];
        i := i + 1;
      }
      assert modules[..i] == modules;
    }

    /** Layers until nothing is pending; false stands for a recursion error after `depth` further levels. */
    method DependencyOrder(stepNumber: nat, depth: nat) returns (ok: bool)
      requires Placed(stepNumber)
      modifies this
      ensures ok <==> moduleDependencies.Keys <= Layers(moduleDependencies, stepNumber + depth)
      ensures ok ==> pendingModules == [] && stepNumber <= |steps| <= stepNumber + depth && Placed(|steps|)
      decreases depth
    {
      if |pendingModules| == 0 {
        assert Elements(pendingModules) == {};
        forall m | m in moduleDependencies
          ensures m in Layers(moduleDependencies, stepNumber)
        {
          assert m !in moduleDependencies.Keys - Layers(moduleDependencies, stepNumber);
        }
        LayersMonotone(moduleDependencies, stepNumber, stepNumber + depth);
        return true;
      }
      if depth == 0 {
        assert pendingModules[0] in Elements(pendingModules);
        return false;
      }
      PlaceLayer(stepNumber);
      assert stepNumber + 1 + (depth - 1) == stepNumber + depth;
      ok := DependencyOrder(stepNumber + 1, depth - 1);
    }
  }

  lemma PendingHaveEntries(deps: Dependencies, pending: seq<string>, n: nat)
    requires Elements(pending) == deps.Keys - Layers(deps, n)
    ensures forall i :: 0 <= i < |pending| ==> pending[i] in deps
  {
    forall i | 0 <= i < |pending|
      ensures pending[i] in deps
    {
      assert pending[i] in Elements(pending);
    }
  }

  lemma NotYet(s: seq<string>, i: nat)
    requires NoRepeats(s) && i < |s|
    ensures s[i] !in Elements(s[..i])
  {
  }

  method IndexOf(s: seq<string>, m: string) returns (at: nat)
    requires m in s
    ensures at < |s| && s[at] == m
  {
    at := 0;
    while s[at] != m
      invariant at < |s| && m in s[at..]
      decreases |s| - at
    {
      assert s[at..] == [s[at]] + s[at + 1..];
      at := at + 1;
    }
  }

  lemma RemoveAt(s: seq<string>, at: nat)
    requires NoRepeats(s) && at < |s|
    ensures NoRepeats(s[..at] + s[at + 1..]) && Elements(s[..at] + s[at + 1..]) == Elements(s) - {s[at]}
  {
  }

  /** The modules moved are exactly the next layer, and moving them keeps the order right. */
  lemma LayerPlaced(deps: Dependencies, n: nat, current: seq<string>, pending: seq<string>, modules: seq<string>)
    requires forall i :: 0 <= i < |pending| ==> pending[i] in deps
    requires Elements(current) == Layers(deps, n) && Elements(pending) == deps.Keys - Layers(deps, n)
    requires NoRepeats(current) && NoRepeats(modules) && InDependencyOrder(deps, current)
    requires modules == Ready(deps, pending, current)
    requires forall m :: m in modules <==> m in pending && forall i :: 0 <= i < |deps[m]| ==> deps[m][i] in current
    ensures Elements(modules) == Layers(deps, n + 1) - Layers(deps, n)
    ensures Elements(current + modules) == Layers(deps, n + 1)
    ensures Elements(pending) - Elements(modules) == deps.Keys - Layers(deps, n + 1)
    ensures NoRepeats(current + modules) && InDependencyOrder(deps, current + modules)
  {
    LayersGrow(deps, n);
    forall m
      ensures m in modules <==> m in Layers(deps, n + 1) && m !in Layers(deps, n)
    {
      assert m in pending <==> m in Elements(pending);
      if m in deps {
        assert forall i :: 0 <= i < |deps[m]| ==> (deps[m][i] in current <==> deps[m][i] in Elements(current));
      }
    }
    var all := current + modules;
    forall i, j | 0 <= i < j < |all|
      ensures all[i] != all[j]
    {
      if i < |current| <= j {
        assert all[i] in Elements(current) && all[j] in modules;
      }
    }
    forall i, d | 0 <= i < |all| && all[i] in deps && d in deps[all[i]]
      ensures d in all[..i]
    {
      if i < |current| {
        assert all[..i] == current[..i];
      } else {
        assert all[i] in modules;
        var j :| 0 <= j < |deps[all[i]]| && deps[all[i]][j] == d;
        assert all[..i] == current + modules[..i - |current|];
      }
    }
  }

  /** The whole sort, with a recursion limit of `depth` levels. It succeeds exactly when every dependency
      has an entry and no dependency chain has more than `depth` modules: with a limit of at least the number
      of modules, exactly when every dependency has an entry and there is no cycle. Then every module is listed once,
      after all its dependencies, in the step whose number is the length of its longest chain, and within a step
      in the given order. */
  method SortToDependencies(deps: Dependencies, keys: seq<string>, depth: nat)
    returns (ok: bool, sorted: seq<string>, steps: seq<seq<string>>)
    requires NoRepeats(keys) && Elements(keys) == deps.Keys
    ensures ok <==> Closed(deps) && forall c :: IsChain(deps, c) ==> |c| <= depth
    ensures depth >= |deps| ==> (ok <==> Closed(deps) && Acyclic(deps))
    ensures ok ==> sorted == Flatten(steps) && NoRepeats(sorted) && Elements(sorted) == deps.Keys && InDependencyOrder(deps, sorted)
    ensures ok ==> forall k, m :: 0 <= k < |steps| && m in steps[k] ==> LongestChain(deps, m, k)
    ensures ok ==> forall k :: 0 <= k < |steps| ==> InOrderOf(steps[k], keys)
  {
    hide InDependencyOrder, Closed, IsChain, LongestChain, Acyclic, InOrderOf, Layers;
    var sorter := new Sorter(deps, keys);
    ok := sorter.DependencyOrder(0, depth);
    PlaceableIffShortChains(deps, depth);
    if depth >= |deps| { AcyclicIffShortChains(deps, depth); }
    sorted, steps := [], [];
    if ok {
      steps := sorter.steps;
      AllPlaced(deps, |steps|);
      StepsAreChains(deps, steps);
      var k := 0;
      while k < |steps|
        invariant 0 <= k <= |steps| && sorted == Flatten(steps[..k])
      {
        assert steps[..k + 1][..k] == steps[..k];
        sorted := sorted + steps[k];
        k := k + 1;
      }
      assert steps[..k] == steps;
    }
  }

  lemma AllPlaced(deps: Dependencies, n: nat)
    requires Elements<string>([]) == deps.Keys - Layers(deps, n)
    ensures Layers(deps, n) == deps.Keys
  {
    LayersGrow(deps, n);
    forall m | m in deps
      ensures m in Layers(deps, n)
    {
      assert m !in deps.Keys - Layers(deps, n);
    }
  }

  lemma StepsAreChains(deps: Dependencies, steps: seq<seq<string>>)
    requires forall k :: 0 <= k < |steps| ==> Elements(steps[k]) == Layers(deps, k + 1) - Layers(deps, k)
    ensures forall k, m :: 0 <= k < |steps| && m in steps[k] ==> LongestChain(deps, m, k)
  {
    hide LongestChain, Layers;
    forall k, m | 0 <= k < |steps| && m in steps[k]
      ensures LongestChain(deps, m, k)
    {
      assert m in Elements(steps[k]);
      LayerIsLongestChain(deps, m, k);
    }
  }

  /** With a cycle the sort fails at every recursion limit. */
  lemma CyclesAreRejected(deps: Dependencies, cycle: seq<string>, depth: nat)
    requires IsChain(deps, cycle) && cycle != [] && cycle[0] in deps[cycle[|cycle| - 1]]
    ensures !(Closed(deps) && forall c :: IsChain(deps, c) ==> |c| <= depth)
  {
    CycleIsNeverPlaced(deps, cycle, 0, depth);
    PlaceableIffShortChains(deps, depth);
  }
}
