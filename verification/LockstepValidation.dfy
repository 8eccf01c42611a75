/** Build-time deadlock prevention: `validate_lockstep_symmetry` and its memoised walk. */
module LockstepValidation {
  import opened Wrappers

  import opened DagModel

  /** Children of every step, each listed once, in declaration order. */
  type Adjacency = map<Name, seq<Name>>

  ghost predicate IsAdjacency(g: Graph, children: Adjacency) {
    && children.Keys == g.nodes.Keys
    && forall u | u in children ::
         && (forall v :: v in children[u] <==> g.Edge(u, v))
         && Unique(children[u])
  }

  // ---------------------------------------------------------------------------
  // Walks
  // ---------------------------------------------------------------------------

  ghost predicate IsWalk(g: Graph, f: Name, w: seq<Name>) {
    && |w| > 0 && w[0] == f && f in g.nodes
    && (forall i :: 0 <= i < |w| ==> w[i] in g.nodes)
    && forall i :: 0 <= i < |w| - 1 ==> g.Edge(w[i], w[i + 1])
  }

  /** Some step strictly inside the walk, other than the fan-out itself, is a barrier. */
  ghost predicate Barred(g: Graph, f: Name, w: seq<Name>)
    requires IsWalk(g, f, w)
  {
    exists i :: 1 <= i < |w| - 1 && w[i] != f && (g.nodes[w[i]].materialized || !g.nodes[w[i]].iterable)
  }

  /** The walk from `f` to `d` has at least one edge and barrier status `b`. */
  ghost predicate Leads(g: Graph, f: Name, d: Name, b: bool, w: seq<Name>) {
    IsWalk(g, f, w) && |w| >= 2 && w[|w| - 1] == d && Barred(g, f, w) == b
  }

  ghost predicate Reaches(g: Graph, f: Name, d: Name, b: bool) {
    exists w :: Leads(g, f, d, b, w)
  }

  /** What the search memoises: it arrives at a step, with or without a barrier behind it. */
  datatype Key = Key(step: Name, barred: bool)

  ghost predicate Arrives(g: Graph, f: Name, k: Key) {
    k == Key(f, false) || Reaches(g, f, k.step, k.barred)
  }

  function Onward(g: Graph, f: Name, k: Key): bool
    requires k.step in g.nodes
  {
    k.barred || (k.step != f && g.Barrier(k.step))
  }

  /** Going on along an edge. */
  lemma WalkOn(g: Graph, f: Name, w: seq<Name>, c: Name)
    requires IsWalk(g, f, w) && g.Edge(w[|w| - 1], c)
    ensures IsWalk(g, f, w + [c])
    ensures Barred(g, f, w + [c]) <==> Onward(g, f, Key(w[|w| - 1], Barred(g, f, w)))
  {
    var w' := w + [c];
    if Barred(g, f, w) {
      var i :| 1 <= i < |w| - 1 && w[i] != f && (g.nodes[w[i]].materialized || !g.nodes[w[i]].iterable);
      assert w'[i] == w[i];
    }
    if w[|w| - 1] != f && g.Barrier(w[|w| - 1]) {
      assert w'[|w| - 1] == w[|w| - 1];
    }
    if Barred(g, f, w') {
      var i :| 1 <= i < |w'| - 1 && w'[i] != f && (g.nodes[w'[i]].materialized || !g.nodes[w'[i]].iterable);
      assert w[i] == w'[i];
    }
  }

  lemma ArrivesOn(g: Graph, f: Name, k: Key, c: Name)
    requires f in g.nodes && Arrives(g, f, k) && g.Edge(k.step, c)
    ensures Reaches(g, f, c, Onward(g, f, k))
  {
    if k == Key(f, false) {
      WalkOn(g, f, [f], c);
      assert Leads(g, f, c, Onward(g, f, k), [f] + [c]);
    } else {
      var w :| Leads(g, f, k.step, k.barred, w);
      WalkOn(g, f, w, c);
      assert Leads(g, f, c, Onward(g, f, k), w + [c]);
    }
  }

  // ---------------------------------------------------------------------------
  // The memoised search
  // ---------------------------------------------------------------------------

  /** `k` has been expanded: its successors are visited and recorded. */
  ghost predicate Expanded(g: Graph, f: Name, visited: set<Key>, seen: map<Name, set<bool>>, k: Key) {
    k.step in g.nodes &&
    forall c | g.Edge(k.step, c) :: Key(c, Onward(g, f, k)) in visited && c in seen && Onward(g, f, k) in seen[c]
  }

  ghost predicate Sound(g: Graph, f: Name, visited: set<Key>, seen: map<Name, set<bool>>) {
    && (forall k | k in visited :: k.step in g.nodes && Arrives(g, f, k))
    && forall d | d in seen :: forall b | b in seen[d] :: Reaches(g, f, d, b)
  }

  ghost function AllKeys(g: Graph): set<Key> {
    (set n | n in g.nodes :: Key(n, true)) + (set n | n in g.nodes :: Key(n, false))
  }

  lemma PairCount(s: set<Name>, b: bool)
    ensures |set n | n in s :: Key(n, b)| == |s|
  {
    if s != {} {
      var x :| x in s;
      PairCount(s - {x}, b);
      assert (set n | n in s :: Key(n, b)) == (set n | n in s - {x} :: Key(n, b)) + {Key(x, b)};
    }
  }

  lemma KeyCount(g: Graph, visited: set<Key>)
    requires forall k | k in visited :: k.step in g.nodes
    ensures |visited| <= 2 * |g.nodes|
  {
    PairCount(g.nodes.Keys, true);
    PairCount(g.nodes.Keys, false);
    assert (set n | n in g.nodes :: Key(n, true)) == set n | n in g.nodes.Keys :: Key(n, true);
    assert (set n | n in g.nodes :: Key(n, false)) == set n | n in g.nodes.Keys :: Key(n, false);
    forall k | k in visited ensures k in AllKeys(g) {
      assert k == Key(k.step, true) || k == Key(k.step, false);
    }
    SubsetCount(visited, AllKeys(g));
  }

  ghost predicate Grows(seen: map<Name, set<bool>>, seen': map<Name, set<bool>>) {
    forall d | d in seen :: d in seen' && seen[d] <= seen'[d]
  }

  ghost predicate Done(visited: set<Key>, seen: map<Name, set<bool>>, cs: seq<Name>, status: bool) {
    forall c | c in cs :: Key(c, status) in visited && c in seen && status in seen[c]
  }

  lemma DoneGrows(visited: set<Key>, seen: map<Name, set<bool>>, visited': set<Key>, seen': map<Name, set<bool>>,
                  cs: seq<Name>, i: nat, status: bool)
    requires i < |cs| && Done(visited, seen, cs[..i], status) && visited <= visited' && Grows(seen, seen')
    requires Key(cs[i], status) in visited' && cs[i] in seen' && status in seen'[cs[i]]
    ensures Done(visited', seen', cs[..i + 1], status)
  {
    assert cs[..i + 1] == cs[..i] + [cs[i]];
  }

  /** The search from one fan-out. */
  class Search {
    const g: Graph
    const children: Adjacency
    const f: Name
    var visited: set<Key>
    var seen: map<Name, set<bool>>
    var bodies: nat

    constructor (g: Graph, children: Adjacency, f: Name)
      requires f in g.nodes
      ensures this.g == g && this.children == children && this.f == f
      ensures visited == {} && seen == map[] && bodies == 0
    {
      this.g, this.children, this.f := g, children, f;
      visited, seen, bodies := {}, map[], 0;
    }

    ghost predicate Valid()
      reads this
    {
      && f in g.nodes && IsAdjacency(g, children)
      && Sound(g, f, visited, seen) && bodies == |visited|
    }

    /** Grey keys are the ones whose expansion is still going on further up. */
    ghost predicate ExpandedBut(grey: set<Key>)
      reads this
    {
      forall k | k in visited && k !in grey :: Expanded(g, f, visited, seen, k)
    }

    /** `barriers_seen[child].add(status)` */
    method Record(child: Name, status: bool, ghost grey: set<Key>)
      requires Valid() && Reaches(g, f, child, status) && ExpandedBut(grey)
      modifies this`seen
      ensures Valid() && ExpandedBut(grey)
      ensures Grows(old(seen), seen) && child in seen && status in seen[child]
    {
      seen := seen[child := (if child in seen then seen[child] else {}) + {status}];
      forall k | k in visited && k !in grey ensures Expanded(g, f, visited, seen, k) {
      }
    }

    method Dfs(current: Name, hasBarrier: bool, ghost grey: set<Key>)
      requires Valid() && current in g.nodes && Arrives(g, f, Key(current, hasBarrier))
      requires ExpandedBut(grey)
      modifies this
      ensures Valid() && Key(current, hasBarrier) in visited
      ensures old(visited) <= visited && Grows(old(seen), seen)
      ensures ExpandedBut(grey)
      decreases AllKeys(g) - visited
    {
      var key := Key(current, hasBarrier);
      if key in visited { return; }
      visited, bodies := visited + {key}, bodies + 1;
      var newHasBarrier := hasBarrier;
      if current != f && (g.nodes[current].materialized || !g.nodes[current].iterable) {
        newHasBarrier := true;
      }
      assert newHasBarrier == Onward(g, f, key) && key in AllKeys(g);
      assert Valid() && ExpandedBut(grey + {key});
      for i := 0 to |children[current]|
        invariant Valid() && old(visited) + {key} <= visited && Grows(old(seen), seen)
        invariant ExpandedBut(grey + {key})
        invariant Done(visited, seen, children[current][..i], newHasBarrier)
      {
        var child := children[current][i];
        ghost var visited0, seen0 := visited, seen;
        assert g.Edge(current, child);
        ArrivesOn(g, f, key, child);
        Record(child, newHasBarrier, grey + {key});
        Dfs(child, newHasBarrier, grey + {key});
        DoneGrows(visited0, seen0, visited, seen, children[current], i, newHasBarrier);
      }
      assert children[current][..|children[current]|] == children[current];
      assert Expanded(g, f, visited, seen, key);
    }
  }

  /** A closed memo has seen every walk. */
  lemma {:induction false} WalksAreSeen(g: Graph, f: Name, visited: set<Key>, seen: map<Name, set<bool>>, w: seq<Name>)
    requires IsWalk(g, f, w) && Key(f, false) in visited
    requires forall k | k in visited :: Expanded(g, f, visited, seen, k)
    ensures Key(w[|w| - 1], Barred(g, f, w)) in visited
    ensures |w| >= 2 ==> w[|w| - 1] in seen && Barred(g, f, w) in seen[w[|w| - 1]]
    decreases |w|
  {
    if |w| >= 2 {
      var v, d := w[..|w| - 1], w[|w| - 1];
      assert IsWalk(g, f, v) && g.Edge(v[|v| - 1], d);
      WalksAreSeen(g, f, visited, seen, v);
      WalkOn(g, f, v, d);
      assert v + [d] == w;
      assert Expanded(g, f, visited, seen, Key(v[|v| - 1], Barred(g, f, v)));
    }
  }

  /** The whole walk from `f`: `barriers_seen` is exactly the set of barrier statuses over all
      walks, on cyclic graphs too, within two body executions per step. */
  method BarriersFrom(g: Graph, children: Adjacency, f: Name) returns (seen: map<Name, set<bool>>, bodies: nat)
    requires IsAdjacency(g, children) && f in g.nodes
    ensures forall d, b :: d in seen && b in seen[d] <==> Reaches(g, f, d, b)
    ensures bodies <= 2 * |g.nodes|
  {
    var search := new Search(g, children, f);
    search.Dfs(f, false, {});
    seen, bodies := search.seen, search.bodies;
    KeyCount(g, search.visited);
    forall d, b | Reaches(g, f, d, b) ensures d in seen && b in seen[d] {
      var w :| Leads(g, f, d, b, w);
      WalksAreSeen(g, f, search.visited, seen, w);
    }
  }

  // ---------------------------------------------------------------------------
  // The validator
  // ---------------------------------------------------------------------------

  /** `u` has the child `w` after the steps in `done`, and the dependencies `part` of step `v`. */
  predicate LinkedSoFar(g: Graph, done: seq<Name>, v: Name, part: seq<Name>, u: Name, w: Name) {
    (w in done && g.Edge(u, w)) || (w == v && u in part)
  }

  ghost predicate ChildrenOf(g: Graph, children: Adjacency, done: seq<Name>, v: Name, part: seq<Name>) {
    && children.Keys == g.nodes.Keys
    && (forall u, w | u in children :: w in children[u] <==> LinkedSoFar(g, done, v, part, u, w))
    && forall u | u in children :: Unique(children[u])
  }

  lemma LinkOne(g: Graph, children: Adjacency, done: seq<Name>, v: Name, deps: seq<Name>, j: nat)
    requires j < |deps| && Unique(deps) && v !in done && ChildrenOf(g, children, done, v, deps[..j])
    ensures var u := deps[j];
            var children' := if u in children then children[u := children[u] + [v]] else children;
            ChildrenOf(g, children', done, v, deps[..j + 1])
  {
    var u := deps[j];
    assert deps[..j + 1] == deps[..j] + [u] && u !in deps[..j];
    if u in children {
      assert v in children[u] <==> LinkedSoFar(g, done, v, deps[..j], u, v);
    }
  }

  lemma LinkedAll(g: Graph, children: Adjacency, done: seq<Name>, v: Name, next: Name)
    requires v in g.nodes && ChildrenOf(g, children, done, v, g.nodes[v].deps)
    ensures ChildrenOf(g, children, done + [v], next, [])
  {
    forall u, w | u in children ensures w in children[u] <==> LinkedSoFar(g, done + [v], next, [], u, w) {
      assert w in children[u] <==> LinkedSoFar(g, done, v, g.nodes[v].deps, u, w);
    }
  }

  /** The inner loop of the adjacency: `v` becomes a child of each of its dependencies. */
  method AppendToParents(g: Graph, before: Adjacency, v: Name, ghost done: seq<Name>) returns (children: Adjacency)
    requires v in g.nodes && Unique(g.nodes[v].deps) && v !in done && ChildrenOf(g, before, done, v, [])
    ensures ChildrenOf(g, children, done, v, g.nodes[v].deps)
  {
    var deps := g.nodes[v].deps;
    children := before;
    assert deps[..0] == [];
    for j := 0 to |deps|
      invariant ChildrenOf(g, children, done, v, deps[..j])
    {
      LinkOne(g, children, done, v, deps, j);
      if deps[j] in g.nodes {
        children := children[deps[j] := children[deps[j]] + [v]];
      }
    }
    assert deps[..|deps|] == deps;
  }

  method BuildChildren(g: Graph) returns (children: Adjacency)
    requires g.Valid()
    ensures IsAdjacency(g, children)
  {
    children := map u | u in g.nodes :: [];
    for i := 0 to |g.names|
      invariant ChildrenOf(g, children, g.names[..i], if i < |g.names| then g.names[i] else "", [])
    {
      var v := g.names[i];
      assert v !in g.names[..i] && g.names[..i + 1] == g.names[..i] + [v];
      children := AppendToParents(g, children, v, g.names[..i]);
      LinkedAll(g, children, g.names[..i], v, if i + 1 < |g.names| then g.names[i + 1] else "");
    }
    assert g.names[..|g.names|] == g.names;
    assert forall u, w | u in children :: w in children[u] <==> LinkedSoFar(g, g.names, "", [], u, w);
  }

  /** An unmaterialised iterable step with more than one child. */
  ghost predicate LazyFanout(g: Graph, f: Name) {
    && f in g.nodes && !g.nodes[f].materialized && g.nodes[f].iterable
    && exists u, v :: u != v && g.Edge(f, u) && g.Edge(f, v)
  }

  /** Two walks from `f` meet in `d`, one with a barrier inside and one without. */
  ghost predicate Asymmetric(g: Graph, f: Name, d: Name) {
    Reaches(g, f, d, true) && Reaches(g, f, d, false)
  }

  lemma FanoutByCount(g: Graph, children: Adjacency, f: Name)
    requires IsAdjacency(g, children) && f in g.nodes && !g.Barrier(f)
    ensures |children[f]| > 1 <==> LazyFanout(g, f)
  {
    if |children[f]| > 1 {
      assert children[f][0] in children[f] && children[f][1] in children[f];
    }
    if u, v :| u != v && g.Edge(f, u) && g.Edge(f, v) {
      assert u in children[f] && v in children[f];
    }
  }

  /** The validator rejects a graph exactly when some lazy fan-out reaches a join both by a walk
      with a barrier inside and by a walk without one. */
  method ValidateLockstepSymmetry(g: Graph) returns (error: Option<(Name, Name)>)
    requires g.Valid()
    ensures error.None? ==> forall f, d :: !(LazyFanout(g, f) && Asymmetric(g, f, d))
    ensures error.Some? ==> LazyFanout(g, error.value.0) && Asymmetric(g, error.value.0, error.value.1)
  {
    var children := BuildChildren(g);
    for i := 0 to |g.names|
      invariant forall f, d :: f in g.names[..i] ==> !(LazyFanout(g, f) && Asymmetric(g, f, d))
    {
      var f := g.names[i];
      assert g.names[..i + 1] == g.names[..i] + [f];
      if g.nodes[f].materialized || !g.nodes[f].iterable { continue; }
      FanoutByCount(g, children, f);
      if |children[f]| <= 1 { continue; }
      var seen, _ := BarriersFrom(g, children, f);
      if d :| d in seen && true in seen[d] && false in seen[d] {
        return Some((f, d));
      }
    }
    assert g.names[..|g.names|] == g.names;
    error := None;
  }
}
