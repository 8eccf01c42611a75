/** The two cycle detectors of the builder, the stack-based search of `check_circular_dependencies`
    and the levels of `get_execution_levels`, and the order of steps within a scope. */
module Topology {
  import opened Wrappers
  import opened DagModel

  // ---------------------------------------------------------------------------
  // Chains and cycles
  // ---------------------------------------------------------------------------

  /** A dependency chain: every step depends on the one before it. */
  ghost predicate IsChain(g: Graph, chain: seq<Name>) {
    && |chain| > 0
    && (forall i :: 0 <= i < |chain| ==> chain[i] in g.nodes)
    && forall i :: 0 <= i < |chain| - 1 ==> g.Edge(chain[i], chain[i + 1])
  }

  ghost predicate Cyclic(g: Graph) {
    exists chain :: IsChain(g, chain) && |chain| >= 2 && chain[0] == chain[|chain| - 1]
  }

  /** A rank that grows along every dependency. */
  ghost predicate Ranked(g: Graph, rank: map<Name, int>) {
    && (forall n | n in g.nodes :: n in rank)
    && forall u, v | g.Edge(u, v) :: rank[u] < rank[v]
  }

  lemma {:induction false} RankGrows(g: Graph, rank: map<Name, int>, chain: seq<Name>, i: nat, j: nat)
    requires Ranked(g, rank) && IsChain(g, chain) && i <= j < |chain|
    ensures rank[chain[i]] + (j - i) <= rank[chain[j]]
    decreases j - i
  {
    if i < j {
      RankGrows(g, rank, chain, i, j - 1);
      assert g.Edge(chain[j - 1], chain[j - 1 + 1]);
    }
  }

  lemma RankedIsAcyclic(g: Graph, rank: map<Name, int>)
    requires Ranked(g, rank)
    ensures !Cyclic(g)
  {
    if chain :| IsChain(g, chain) && |chain| >= 2 && chain[0] == chain[|chain| - 1] {
      RankGrows(g, rank, chain, 0, |chain| - 1);
    }
  }

  lemma ChainSlice(g: Graph, chain: seq<Name>, i: nat, j: nat)
    requires IsChain(g, chain) && i < j <= |chain|
    ensures IsChain(g, chain[i..j])
  {
    forall k | 0 <= k < j - i - 1 ensures g.Edge(chain[i..j][k], chain[i..j][k + 1]) {
      assert g.Edge(chain[i + k], chain[i + k + 1]);
    }
  }

  lemma ChainPush(g: Graph, u: Name, chain: seq<Name>)
    requires IsChain(g, chain) && g.Edge(u, chain[0])
    ensures IsChain(g, [u] + chain)
  {
    var longer := [u] + chain;
    forall i | 0 <= i < |longer| - 1 ensures g.Edge(longer[i], longer[i + 1]) {
      if i > 0 { assert longer[i] == chain[i - 1] && longer[i + 1] == chain[i - 1 + 1]; }
    }
  }

  lemma IsLoop(g: Graph, loop: seq<Name>)
    requires IsChain(g, loop) && |loop| >= 2 && loop[0] == loop[|loop| - 1]
    ensures Cyclic(g)
  {
  }

  /** A dependency of the first step that is already on the chain closes a cycle. */
  lemma LoopClosed(g: Graph, chain: seq<Name>, u: Name)
    requires IsChain(g, chain) && u in chain && g.Edge(u, chain[0])
    ensures Cyclic(g)
  {
    ChainPush(g, u, chain);
    var k :| 0 <= k < |chain| && chain[k] == u;
    var longer := [u] + chain;
    ChainSlice(g, longer, 0, k + 2);
    assert longer[0] == u && longer[k + 1] == chain[k];
    IsLoop(g, longer[0..k + 2]);
  }

  lemma LongerChainFits(rest: set<Name>, chain: seq<Name>)
    requires Unique(chain) && forall n | n in chain :: n in rest
    ensures |chain| <= |rest|
  {
    ElementCount(chain);
    SubsetCount((set n | n in chain), rest);
  }

  ghost predicate HasDepIn(g: Graph, rest: set<Name>, v: Name) {
    exists u | u in rest :: g.Edge(u, v)
  }

  /** Following dependencies inside a set of steps that each have one in the set runs into a cycle. */
  lemma {:induction false} BackwardsForever(g: Graph, rest: set<Name>, chain: seq<Name>)
    requires forall v {:trigger HasDepIn(g, rest, v)} | v in rest :: HasDepIn(g, rest, v)
    requires IsChain(g, chain) && Unique(chain) && forall n | n in chain :: n in rest
    ensures Cyclic(g)
    decreases |rest| - |chain|
  {
    assert chain[0] in rest && HasDepIn(g, rest, chain[0]);
    var u :| u in rest && g.Edge(u, chain[0]);
    if u in chain {
      LoopClosed(g, chain, u);
    } else {
      ChainPush(g, u, chain);
      LongerChainFits(rest, [u] + chain);
      BackwardsForever(g, rest, [u] + chain);
    }
  }

  lemma {:induction false} ElementCount(xs: seq<Name>)
    requires Unique(xs)
    ensures |set n | n in xs| == |xs|
  {
    if xs != [] {
      ElementCount(xs[1..]);
      assert xs == [xs[0]] + xs[1..];
      assert (set n | n in xs) == (set n | n in xs[1..]) + {xs[0]};
    } else {
      assert (set n | n in xs) == {};
    }
  }

  // ---------------------------------------------------------------------------
  // The stack-based search
  // ---------------------------------------------------------------------------

  function DepsOf(g: Graph, n: Name): seq<Name> {
    if n in g.nodes then g.nodes[n].deps else []
  }

  ghost function Mentioned(g: Graph): set<Name> {
    g.nodes.Keys + (set n, d | n in g.nodes && d in g.nodes[n].deps :: d)
  }

  /** Every name in `order` comes after all its dependencies. */
  ghost predicate Sorted(g: Graph, order: seq<Name>) {
    Unique(order) && forall i | 0 <= i < |order| :: forall d | d in DepsOf(g, order[i]) :: d in order[..i]
  }

  lemma SortedSnoc(g: Graph, order: seq<Name>, n: Name)
    requires Sorted(g, order) && n !in order && forall d | d in DepsOf(g, n) :: d in order
    ensures Sorted(g, order + [n])
  {
    var longer := order + [n];
    forall i | 0 <= i < |longer| ensures forall d | d in DepsOf(g, longer[i]) :: d in longer[..i] {
      assert longer[..i] == order[..i];
      if i == |order| { assert order[..i] == order; }
    }
  }

  lemma {:induction false} RankOf(order: seq<Name>) returns (rank: map<Name, int>)
    requires Unique(order)
    ensures forall i :: 0 <= i < |order| ==> order[i] in rank && rank[order[i]] == i
  {
    rank := map[];
    for k := 0 to |order|
      invariant forall i :: 0 <= i < k ==> order[i] in rank && rank[order[i]] == i
    {
      rank := rank[order[k] := k];
    }
  }

  lemma SortedIsAcyclic(g: Graph, order: seq<Name>)
    requires g.Valid() && Sorted(g, order) && forall n | n in g.nodes :: n in order
    ensures !Cyclic(g)
  {
    var rank := RankOf(order);
    forall u, v | g.Edge(u, v) ensures rank[u] < rank[v] {
      var i :| 0 <= i < |order| && order[i] == v;
      assert u in DepsOf(g, order[i]);
      var j :| 0 <= j < |order[..i]| && order[..i][j] == u;
      assert order[j] == u;
    }
    RankedIsAcyclic(g, rank);
  }

  /** Following dependencies from the step leads into a cycle. */
  ghost predicate RunsIntoCycle(g: Graph, n: Name) {
    exists chain :: IsChain(g, chain) && chain[|chain| - 1] == n && chain[0] in chain[1..]
  }

  function RootOf(path: seq<Name>, node: Name): Name {
    if path == [] then node else path[|path| - 1]
  }

  lemma ChainRunsInto(g: Graph, chain: seq<Name>)
    requires IsChain(g, chain) && chain[0] in chain[1..]
    ensures RunsIntoCycle(g, chain[|chain| - 1])
  {
  }

  lemma RunsInto(g: Graph, path: seq<Name>, node: Name)
    requires IsChain(g, path) && node in path && g.Edge(node, path[0])
    ensures RunsIntoCycle(g, RootOf(path, node))
  {
    ChainPush(g, node, path);
    var chain := [node] + path;
    assert chain[1..] == path;
    ChainRunsInto(g, chain);
  }

  class CycleSearch {
    const g: Graph
    var visited: set<Name>
    var stack: set<Name>
    /** The names whose search is finished, in finishing order. */
    ghost var order: seq<Name>

    constructor (g: Graph)
      ensures this.g == g && visited == {} && stack == {} && order == []
    {
      this.g := g;
      visited, stack, order := {}, {}, [];
    }

    ghost predicate Valid()
      reads this
    {
      && (forall n :: n in visited <==> n in stack || n in order)
      && (forall n | n in order :: n !in stack)
      && Sorted(g, order) && visited <= Mentioned(g)
    }

    /** `path` lists the stack from `node` back to where the search began: each name depends on the
        one before it. */
    method Dfs(node: Name, ghost path: seq<Name>) returns (found: bool)
      requires g.Valid() && Valid() && node in Mentioned(g)
      requires forall n :: n in stack <==> n in path
      requires path != [] ==> IsChain(g, path) && node in g.nodes[path[0]].deps
      modifies this
      ensures found ==> Cyclic(g) && RunsIntoCycle(g, RootOf(path, node))
      ensures !found ==> Valid() && stack == old(stack) && node in order
      ensures !found ==> old(order) <= order
      decreases Mentioned(g) - visited
    {
      if node in stack {
        LoopClosed(g, path, node);
        RunsInto(g, path, node);
        return true;
      }
      if node in visited { return false; }
      visited, stack := visited + {node}, stack + {node};
      var deps := DepsOf(g, node);
      ghost var longer := [node] + path;
      if node in g.nodes && path != [] { ChainPush(g, node, path); }
      for i := 0 to |deps|
        invariant Valid() && stack == old(stack) + {node} && old(visited) + {node} <= visited
        invariant old(order) <= order && forall d | d in deps[..i] :: d in order
      {
        assert deps[i] in deps && deps[i] in Mentioned(g);
        var inner := Dfs(deps[i], longer);
        if inner { return true; }
        assert deps[..i + 1] == deps[..i] + [deps[i]];
      }
      assert deps[..|deps|] == deps;
      SortedSnoc(g, order, node);
      stack, order := stack - {node}, order + [node];
      found := false;
    }
  }

  /** `check_circular_dependencies` raises exactly when the steps contain a cycle, and names a step from
      which dependencies lead into one. */
  method CheckCircularDependencies(g: Graph) returns (raises: Option<Name>)
    requires g.Valid()
    ensures raises.Some? <==> Cyclic(g)
    ensures raises.Some? ==> raises.value in g.names && RunsIntoCycle(g, raises.value)
  {
    var search := new CycleSearch(g);
    for i := 0 to |g.names|
      invariant fresh(search) && search.g == g
      invariant search.Valid() && search.stack == {} && forall k :: 0 <= k < i ==> g.names[k] in search.order
    {
      ghost var before := search.order;
      var found := search.Dfs(g.names[i], []);
      if found { return Some(g.names[i]); }
    }
    SortedIsAcyclic(g, search.order);
    raises := None;
  }

  // ---------------------------------------------------------------------------
  // Execution levels
  // ---------------------------------------------------------------------------

  /** How many dependencies are steps that have not been processed. */
  function Pending(g: Graph, deps: seq<Name>, processed: set<Name>): nat {
    if deps == [] then 0
    else (if deps[0] in g.nodes && deps[0] !in processed then 1 else 0) + Pending(g, deps[1..], processed)
  }

  lemma {:induction false} PendingSnoc(g: Graph, deps: seq<Name>, d: Name, processed: set<Name>)
    ensures Pending(g, deps + [d], processed)
         == Pending(g, deps, processed) + if d in g.nodes && d !in processed then 1 else 0
  {
    if deps == [] {
      assert [d][1..] == [];
    } else {
      assert (deps + [d])[1..] == deps[1..] + [d];
      PendingSnoc(g, deps[1..], d, processed);
    }
  }

  lemma {:induction false} PendingDrops(g: Graph, deps: seq<Name>, processed: set<Name>, x: Name)
    requires Unique(deps) && x in g.nodes && x !in processed
    ensures Pending(g, deps, processed + {x}) == Pending(g, deps, processed) - if x in deps then 1 else 0
  {
    if deps != [] {
      PendingDrops(g, deps[1..], processed, x);
      assert deps == [deps[0]] + deps[1..];
      if deps[0] == x { assert x !in deps[1..]; }
    }
  }

  lemma {:induction false} PendingZero(g: Graph, deps: seq<Name>, processed: set<Name>)
    ensures Pending(g, deps, processed) == 0 <==> forall d | d in deps && d in g.nodes :: d in processed
  {
    if deps != [] {
      PendingZero(g, deps[1..], processed);
      assert deps == [deps[0]] + deps[1..];
    }
  }

  ghost function Union(levels: seq<seq<Name>>): set<Name> {
    set i, n | 0 <= i < |levels| && n in levels[i] :: n
  }

  function SetOf(xs: seq<Name>): set<Name> {
    set n | n in xs
  }

  lemma InUnion(levels: seq<seq<Name>>, i: nat, n: Name)
    requires i < |levels| && n in levels[i]
    ensures n in Union(levels)
  {
  }

  /** One step is declared before the other. */
  ghost predicate DeclaredBefore(g: Graph, u: Name, v: Name) {
    exists p, q :: 0 <= p < q < |g.names| && g.names[p] == u && g.names[q] == v
  }

  ghost predicate InDeclaredOrder(g: Graph, level: seq<Name>) {
    forall x, y :: 0 <= x < y < |level| ==> DeclaredBefore(g, level[x], level[y])
  }

  /** The steps of level `i` depend on earlier levels only, and each on the level just before. */
  ghost predicate LevelOk(g: Graph, levels: seq<seq<Name>>, i: nat)
    requires i < |levels|
  {
    && levels[i] != [] && Unique(levels[i])
    && forall v | v in levels[i] ::
         && v in g.nodes && v !in Union(levels[..i])
         && (forall d | g.Edge(d, v) :: d in Union(levels[..i]))
         && (i > 0 ==> exists d | d in levels[i - 1] :: g.Edge(d, v))
  }

  ghost predicate Levelled(g: Graph, levels: seq<seq<Name>>) {
    forall i | 0 <= i < |levels| :: LevelOk(g, levels, i)
  }

  /** `k` is the length of the longest dependency chain that ends in `v`. */
  ghost predicate LongestChain(g: Graph, v: Name, k: nat) {
    && (exists chain :: IsChain(g, chain) && chain[|chain| - 1] == v && |chain| == k)
    && forall chain :: IsChain(g, chain) && chain[|chain| - 1] == v ==> |chain| <= k
  }

  lemma InSomeLevel(levels: seq<seq<Name>>, i: nat, n: Name) returns (j: nat)
    requires i <= |levels| && n in Union(levels[..i])
    ensures j < i && n in levels[j]
  {
    j :| 0 <= j < |levels[..i]| && n in levels[..i][j];
  }

  lemma {:induction false} ChainsFit(g: Graph, levels: seq<seq<Name>>, i: nat, chain: seq<Name>)
    requires Levelled(g, levels) && i < |levels| && IsChain(g, chain) && chain[|chain| - 1] in levels[i]
    ensures |chain| <= i + 1
    decreases i
  {
    if |chain| > 1 {
      var front := chain[..|chain| - 1];
      ChainSlice(g, chain, 0, |chain| - 1);
      assert chain[0..|chain| - 1] == front && LevelOk(g, levels, i);
      assert g.Edge(chain[|chain| - 2], chain[|chain| - 2 + 1]);
      var j := InSomeLevel(levels, i, chain[|chain| - 2]);
      ChainsFit(g, levels, j, front);
    }
  }

  lemma ChainSnoc(g: Graph, chain: seq<Name>, v: Name)
    requires IsChain(g, chain) && g.Edge(chain[|chain| - 1], v)
    ensures IsChain(g, chain + [v])
  {
    var longer := chain + [v];
    forall i | 0 <= i < |longer| - 1 ensures g.Edge(longer[i], longer[i + 1]) {
      if i < |chain| - 1 { assert g.Edge(chain[i], chain[i + 1]); }
    }
  }

  lemma {:induction false} ChainFound(g: Graph, levels: seq<seq<Name>>, i: nat, v: Name) returns (chain: seq<Name>)
    requires Levelled(g, levels) && i < |levels| && v in levels[i]
    ensures IsChain(g, chain) && chain[|chain| - 1] == v && |chain| == i + 1
    decreases i
  {
    assert LevelOk(g, levels, i);
    if i == 0 {
      chain := [v];
    } else {
      var d :| d in levels[i - 1] && g.Edge(d, v);
      chain := ChainFound(g, levels, i - 1, d);
      ChainSnoc(g, chain, v);
      chain := chain + [v];
    }
  }

  /** A step's level is the length of its longest dependency chain. */
  lemma LevelIsLongestChain(g: Graph, levels: seq<seq<Name>>, i: nat, v: Name)
    requires Levelled(g, levels) && i < |levels| && v in levels[i]
    ensures LongestChain(g, v, i + 1)
  {
    var chain := ChainFound(g, levels, i, v);
    forall other | IsChain(g, other) && other[|other| - 1] == v ensures |other| <= i + 1 {
      ChainsFit(g, levels, i, other);
    }
  }

  lemma OneLevel(g: Graph, levels: seq<seq<Name>>, i: nat, j: nat, n: Name)
    requires Levelled(g, levels) && i < |levels| && j < |levels| && n in levels[i] && n in levels[j]
    ensures i == j
  {
    assert LevelOk(g, levels, i) && LevelOk(g, levels, j);
    if i < j { InUnion(levels[..j], i, n); }
    if j < i { InUnion(levels[..i], j, n); }
  }

  lemma LevelledIsAcyclic(g: Graph, levels: seq<seq<Name>>)
    requires Levelled(g, levels) && Union(levels) == g.nodes.Keys
    ensures !Cyclic(g)
  {
    var rank := map n | n in g.nodes :: (var i :| 0 <= i < |levels| && n in levels[i]; i);
    forall u, v | g.Edge(u, v) ensures rank[u] < rank[v] {
      assert LevelOk(g, levels, rank[v]);
      var j := InSomeLevel(levels, rank[v], u);
      OneLevel(g, levels, rank[u], j, u);
    }
    RankedIsAcyclic(g, rank);
  }

  method CountDependencies(g: Graph, before: map<Name, int>, name: Name) returns (inDegree: map<Name, int>)
    requires name in g.nodes && before.Keys == g.nodes.Keys && before[name] == 0
    ensures inDegree == before[name := Pending(g, g.nodes[name].deps, {})]
  {
    var deps := g.nodes[name].deps;
    inDegree := before;
    for j := 0 to |deps|
      invariant inDegree == before[name := Pending(g, deps[..j], {})]
    {
      PendingSnoc(g, deps[..j], deps[j], {});
      assert deps[..j + 1] == deps[..j] + [deps[j]];
      if deps[j] in inDegree { inDegree := inDegree[name := inDegree[name] + 1]; }
    }
    assert deps[..|deps|] == deps;
  }

  method InitialDegrees(g: Graph) returns (inDegree: map<Name, int>)
    requires g.Valid()
    ensures DegreesOk(g, inDegree, {})
  {
    inDegree := map n | n in g.nodes :: 0;
    for i := 0 to |g.names|
      invariant inDegree.Keys == g.nodes.Keys
      invariant forall k :: 0 <= k < i ==> inDegree[g.names[k]] == Pending(g, g.nodes[g.names[k]].deps, {})
      invariant forall k :: i <= k < |g.names| ==> inDegree[g.names[k]] == 0
    {
      inDegree := CountDependencies(g, inDegree, g.names[i]);
    }
  }

  ghost predicate DegreesOk(g: Graph, inDegree: map<Name, int>, processed: set<Name>) {
    inDegree.Keys == g.nodes.Keys
    && forall v | v in g.nodes :: inDegree[v] == Pending(g, g.nodes[v].deps, processed)
  }

  /** The first k names have left `name` behind. */
  ghost predicate DischargedTo(g: Graph, before: map<Name, int>, inDegree: map<Name, int>, name: Name, k: nat)
    requires k <= |g.names|
  {
    && inDegree.Keys == before.Keys == g.nodes.Keys
    && forall v | v in g.nodes ::
         inDegree[v] == before[v] - if v in g.names[..k] && name in g.nodes[v].deps then 1 else 0
  }

  lemma DischargeOne(g: Graph, before: map<Name, int>, inDegree: map<Name, int>, name: Name, k: nat)
    requires g.Valid() && k < |g.names| && DischargedTo(g, before, inDegree, name, k)
    ensures var other := g.names[k];
      && other in inDegree && other in g.nodes
      && DischargedTo(g, before, if name in g.nodes[other].deps then inDegree[other := inDegree[other] - 1] else inDegree,
                      name, k + 1)
  {
    var other := g.names[k];
    assert g.names[..k + 1] == g.names[..k] + [other] && other !in g.names[..k];
  }

  lemma AllDischarged(g: Graph, before: map<Name, int>, inDegree: map<Name, int>, name: Name, processed: set<Name>)
    requires g.Valid() && DegreesOk(g, before, processed) && name in g.nodes && name !in processed
    requires DischargedTo(g, before, inDegree, name, |g.names|)
    ensures DegreesOk(g, inDegree, processed + {name})
  {
    assert g.names[..|g.names|] == g.names;
    forall v | v in g.nodes ensures inDegree[v] == Pending(g, g.nodes[v].deps, processed + {name}) {
      PendingDrops(g, g.nodes[v].deps, processed, name);
    }
  }

  /** One step of a level leaves the in-degrees of its consumers. */
  method Discharge(g: Graph, before: map<Name, int>, name: Name, ghost processed: set<Name>)
    returns (inDegree: map<Name, int>)
    requires g.Valid() && DegreesOk(g, before, processed) && name in g.nodes && name !in processed
    ensures DegreesOk(g, inDegree, processed + {name})
  {
    inDegree := before;
    for k := 0 to |g.names|
      invariant DischargedTo(g, before, inDegree, name, k)
    {
      var other := g.names[k];
      DischargeOne(g, before, inDegree, name, k);
      if name in g.nodes[other].deps { inDegree := inDegree[other := inDegree[other] - 1]; }
    }
    AllDischarged(g, before, inDegree, name, processed);
  }

  lemma DeclaredLast(g: Graph, k: nat, level: seq<Name>)
    requires k < |g.names| && InDeclaredOrder(g, level) && forall n | n in level :: n in g.names[..k]
    ensures InDeclaredOrder(g, level + [g.names[k]])
  {
    var longer := level + [g.names[k]];
    forall x, y | 0 <= x < y < |longer| ensures DeclaredBefore(g, longer[x], longer[y]) {
      if y == |level| {
        assert longer[x] in level;
        var p :| 0 <= p < |g.names[..k]| && g.names[..k][p] == longer[x];
        assert g.names[p] == longer[x];
      }
    }
  }

  /** The steps among the first k names that have nothing left to wait for, in declaration order. */
  ghost predicate LevelUpTo(g: Graph, inDegree: map<Name, int>, processed: set<Name>, k: nat, level: seq<Name>)
    requires k <= |g.names| && forall n | n in g.names :: n in inDegree
  {
    && Unique(level) && InDeclaredOrder(g, level)
    && forall n :: n in level <==> n in g.names[..k] && n !in processed && inDegree[n] == 0
  }

  lemma LevelNext(g: Graph, inDegree: map<Name, int>, processed: set<Name>, k: nat, level: seq<Name>)
    requires Unique(g.names) && k < |g.names| && forall n | n in g.names :: n in inDegree
    requires LevelUpTo(g, inDegree, processed, k, level)
    ensures var n := g.names[k];
      LevelUpTo(g, inDegree, processed, k + 1, if inDegree[n] == 0 && n !in processed then level + [n] else level)
  {
    var n := g.names[k];
    assert g.names[..k + 1] == g.names[..k] + [n] && n !in g.names[..k];
    if inDegree[n] == 0 && n !in processed { DeclaredLast(g, k, level); }
  }

  /** The steps with nothing left to wait for, in declaration order. */
  method NextLevel(g: Graph, inDegree: map<Name, int>, processed: set<Name>) returns (level: seq<Name>)
    requires g.Valid() && DegreesOk(g, inDegree, processed)
    ensures Unique(level) && InDeclaredOrder(g, level)
    ensures forall n :: n in level <==> n in g.nodes && n !in processed && inDegree[n] == 0
  {
    level := [];
    for k := 0 to |g.names|
      invariant LevelUpTo(g, inDegree, processed, k, level)
    {
      LevelNext(g, inDegree, processed, k, level);
      if inDegree[g.names[k]] == 0 && g.names[k] !in processed { level := level + [g.names[k]]; }
    }
    assert g.names[..|g.names|] == g.names;
  }

  /** A step that is still waiting was waiting for the last level or for a later one. */
  ghost predicate WaitsForLast(g: Graph, levels: seq<seq<Name>>, v: Name) {
    levels != [] ==> exists d :: g.Edge(d, v) && d !in Union(levels[..|levels| - 1])
  }

  lemma NextLevelOk(g: Graph, levels: seq<seq<Name>>, level: seq<Name>)
    requires Levelled(g, levels) && level != [] && Unique(level)
    requires forall v | v in level :: v in g.nodes && v !in Union(levels) && WaitsForLast(g, levels, v)
    requires forall v, d | v in level && g.Edge(d, v) :: d in Union(levels)
    ensures Levelled(g, levels + [level]) && Union(levels + [level]) == Union(levels) + SetOf(level)
  {
    var longer := levels + [level];
    assert longer[..|levels|] == levels;
    forall v | v in level && levels != [] ensures exists d | d in levels[|levels| - 1] :: g.Edge(d, v) {
      var d :| g.Edge(d, v) && d !in Union(levels[..|levels| - 1]);
      var j := InSomeLevel(levels + [level], |levels|, d);
      if j < |levels| - 1 { InUnion(levels[..|levels| - 1], j, d); }
    }
    forall i | 0 <= i < |longer| ensures LevelOk(g, longer, i) {
      assert longer[..i] == levels[..i];
      if i < |levels| { assert LevelOk(g, levels, i); }
    }
    forall n | n in Union(levels) + SetOf(level) ensures n in Union(longer) {
      if n in Union(levels) {
        var j := InSomeLevel(longer, |levels|, n);
      } else {
        assert n in longer[|levels|];
      }
    }
  }

  lemma NoLevelMeansCycle(g: Graph, processed: set<Name>, inDegree: map<Name, int>, v: Name)
    requires g.Valid() && DegreesOk(g, inDegree, processed) && v in g.nodes && v !in processed
    requires forall n | n in g.nodes && n !in processed :: inDegree[n] != 0
    ensures Cyclic(g)
  {
    var rest := g.nodes.Keys - processed;
    forall n | n in rest ensures HasDepIn(g, rest, n) {
      PendingZero(g, g.nodes[n].deps, processed);
      var d :| d in g.nodes[n].deps && d in g.nodes && d !in processed;
      assert g.Edge(d, n);
    }
    BackwardsForever(g, rest, [v]);
  }

  /** The steps left after a level were waiting for that level or for a later one. */
  lemma StillWaiting(g: Graph, levels: seq<seq<Name>>, level: seq<Name>, inDegree: map<Name, int>, v: Name)
    requires g.Valid() && DegreesOk(g, inDegree, Union(levels)) && v in g.nodes && inDegree[v] != 0
    ensures WaitsForLast(g, levels + [level], v)
  {
    PendingZero(g, g.nodes[v].deps, Union(levels));
    assert (levels + [level])[..|levels|] == levels;
    var d :| d in g.nodes[v].deps && d in g.nodes && d !in Union(levels);
    assert g.Edge(d, v);
  }

  /** The inner loops of one level. */
  method DischargeAll(g: Graph, before: map<Name, int>, level: seq<Name>, ghost processed: set<Name>)
    returns (inDegree: map<Name, int>)
    requires g.Valid() && DegreesOk(g, before, processed) && Unique(level)
    requires forall n | n in level :: n in g.nodes && n !in processed
    ensures DegreesOk(g, inDegree, processed + SetOf(level))
  {
    inDegree := before;
    assert processed + SetOf(level[..0]) == processed;
    for i := 0 to |level|
      invariant DegreesOk(g, inDegree, processed + SetOf(level[..i]))
    {
      assert level[..i + 1] == level[..i] + [level[i]] && level[i] !in level[..i] && level[i] in level;
      inDegree := Discharge(g, inDegree, level[i], processed + SetOf(level[..i]));
      assert processed + SetOf(level[..i]) + {level[i]} == processed + SetOf(level[..i + 1]);
    }
    assert level[..|level|] == level;
  }

  ghost predicate LevelsSoFar(g: Graph, levels: seq<seq<Name>>, processed: set<Name>) {
    && processed <= g.nodes.Keys
    && Levelled(g, levels) && Union(levels) == processed
    && (forall i :: 0 <= i < |levels| ==> InDeclaredOrder(g, levels[i]))
    && forall v | v in g.nodes && v !in processed :: WaitsForLast(g, levels, v)
  }

  lemma LevelAdded(g: Graph, levels: seq<seq<Name>>, processed: set<Name>, inDegree: map<Name, int>, level: seq<Name>)
    requires g.Valid() && DegreesOk(g, inDegree, processed) && LevelsSoFar(g, levels, processed)
    requires level != [] && Unique(level) && InDeclaredOrder(g, level)
    requires forall n :: n in level <==> n in g.nodes && n !in processed && inDegree[n] == 0
    ensures LevelsSoFar(g, levels + [level], processed + SetOf(level))
  {
    forall v, d | v in level && g.Edge(d, v) ensures d in Union(levels) {
      PendingZero(g, g.nodes[v].deps, processed);
    }
    NextLevelOk(g, levels, level);
    forall v | v in g.nodes && v !in processed + SetOf(level) ensures WaitsForLast(g, levels + [level], v) {
      StillWaiting(g, levels, level, inDegree, v);
    }
  }

  lemma Leftover(processed: set<Name>, all: set<Name>) returns (v: Name)
    requires processed <= all && |processed| < |all|
    ensures v in all && v !in processed
  {
    assert processed != all;
    v :| v in all && v !in processed;
  }

  /** What `get_execution_levels` promises: the levels partition the steps, the level of a step is the
      length of its longest dependency chain, and within a level steps come as they were declared. */
  ghost predicate LevelsOf(g: Graph, levels: seq<seq<Name>>) {
    && Levelled(g, levels) && Union(levels) == g.nodes.Keys
    && (forall i :: 0 <= i < |levels| ==> InDeclaredOrder(g, levels[i]))
    && forall i, v | 0 <= i < |levels| && v in levels[i] :: LongestChain(g, v, i + 1)
  }

  lemma AllLevels(g: Graph, levels: seq<seq<Name>>)
    requires LevelsSoFar(g, levels, g.nodes.Keys)
    ensures LevelsOf(g, levels) && !Cyclic(g)
  {
    LevelledIsAcyclic(g, levels);
    forall i, v | 0 <= i < |levels| && v in levels[i] ensures LongestChain(g, v, i + 1) {
      LevelIsLongestChain(g, levels, i, v);
    }
  }

  /** Levels exist exactly when the steps contain no cycle. */
  method GetExecutionLevels(g: Graph) returns (levels: Option<seq<seq<Name>>>)
    requires g.Valid()
    ensures levels.None? <==> Cyclic(g)
    ensures levels.Some? ==> LevelsOf(g, levels.value)
  {
    var inDegree := InitialDegrees(g);
    var found: seq<seq<Name>> := [];
    var processed: set<Name> := {};
    while |processed| < |inDegree.Keys|
      invariant DegreesOk(g, inDegree, processed) && LevelsSoFar(g, found, processed)
      decreases g.nodes.Keys - processed
    {
      var level := NextLevel(g, inDegree, processed);
      if level == [] {
        ghost var v := Leftover(processed, g.nodes.Keys);
        NoLevelMeansCycle(g, processed, inDegree, v);
        return None;
      }
      LevelAdded(g, found, processed, inDegree, level);
      assert level[0] in SetOf(level);
      inDegree := DischargeAll(g, inDegree, level, processed);
      found, processed := found + [level], processed + SetOf(level);
    }
    if processed != g.nodes.Keys { StrictSubset(processed, g.nodes.Keys); }
    AllLevels(g, found);
    levels := Some(found);
  }

  lemma StrictSubset(a: set<Name>, b: set<Name>)
    requires a < b
    ensures |a| < |b|
  {
    var x :| x in b && x !in a;
    SubsetCount(a, b - {x});
  }
}
