/** Scope metadata: every step's position within its pipeline instance (`_stamp_scope_metadata`). */
module ScopeStamping {
  import opened DagModel
  import opened Topology

  type Scope = string

  function ScopeOf(scopes: map<Name, Scope>, n: Name): (s: Scope)
    ensures n in scopes ==> s == scopes[n]
    ensures n !in scopes ==> s == ""
  {
    if n in scopes then scopes[n] else ""
  }

  function Flatten(levels: seq<seq<Name>>): seq<Name> {
    if levels == [] then [] else Flatten(levels[..|levels| - 1]) + levels[|levels| - 1]
  }

  /** The steps of one scope, in order. */
  function Within(scopes: map<Name, Scope>, flat: seq<Name>, scope: Scope): (r: seq<Name>)
    ensures |r| <= |flat|
  {
    if flat == [] then []
    else
      var before := Within(scopes, flat[..|flat| - 1], scope);
      if ScopeOf(scopes, flat[|flat| - 1]) == scope then before + [flat[|flat| - 1]] else before
  }

  lemma {:induction false} WithinMembers(scopes: map<Name, Scope>, flat: seq<Name>, scope: Scope)
    ensures forall n :: n in Within(scopes, flat, scope) <==> n in flat && ScopeOf(scopes, n) == scope
    ensures Unique(flat) ==> Unique(Within(scopes, flat, scope))
    decreases |flat|
  {
    if flat != [] {
      var front, last := flat[..|flat| - 1], flat[|flat| - 1];
      WithinMembers(scopes, front, scope);
      assert flat == front + [last];
    }
  }

  lemma {:induction false} WithinNone(scopes: map<Name, Scope>, flat: seq<Name>, scope: Scope)
    requires forall n | n in flat :: ScopeOf(scopes, n) != scope
    ensures Within(scopes, flat, scope) == []
    decreases |flat|
  {
    if flat != [] {
      assert flat[|flat| - 1] in flat;
      WithinNone(scopes, flat[..|flat| - 1], scope);
    }
  }

  /** Earlier in the whole order means earlier within the scope. */
  lemma {:induction false} WithinKeepsOrder(scopes: map<Name, Scope>, flat: seq<Name>, scope: Scope, i: nat, j: nat)
    returns (x: nat, y: nat)
    requires i < j < |flat| && ScopeOf(scopes, flat[i]) == scope == ScopeOf(scopes, flat[j])
    ensures var r := Within(scopes, flat, scope); x < y < |r| && r[x] == flat[i] && r[y] == flat[j]
    decreases |flat|
  {
    var front, last := flat[..|flat| - 1], flat[|flat| - 1];
    if j < |flat| - 1 {
      x, y := WithinKeepsOrder(scopes, front, scope, i, j);
    } else {
      WithinMembers(scopes, front, scope);
      assert front[i] in front;
      var before := Within(scopes, front, scope);
      x :| 0 <= x < |before| && before[x] == flat[i];
      y := |before|;
    }
  }

  lemma UniqueConcat(a: seq<Name>, b: seq<Name>)
    requires Unique(a) && Unique(b) && forall n | n in b :: n !in a
    ensures Unique(a + b)
  {
    forall i, j | 0 <= i < j < |a + b| ensures (a + b)[i] != (a + b)[j] {
      if i < |a| <= j {
        assert b[j - |a|] in b && a[i] in a;
      }
    }
  }

  lemma LevelledFront(g: Graph, levels: seq<seq<Name>>)
    requires Levelled(g, levels) && levels != []
    ensures Levelled(g, levels[..|levels| - 1])
  {
    var front := levels[..|levels| - 1];
    forall i | 0 <= i < |front| ensures LevelOk(g, front, i) {
      assert LevelOk(g, levels, i) && front[..i] == levels[..i];
    }
  }

  lemma UnionSnoc(front: seq<seq<Name>>, last: seq<Name>)
    ensures Union(front + [last]) == Union(front) + SetOf(last)
  {
    var levels := front + [last];
    forall n | n in Union(front) ensures n in Union(levels) {
      var i :| 0 <= i < |front| && n in front[i];
      InUnion(levels, i, n);
    }
    forall n | n in last ensures n in Union(levels) {
      InUnion(levels, |front|, n);
    }
    forall n | n in Union(levels) ensures n in Union(front) || n in last {
      var i :| 0 <= i < |levels| && n in levels[i];
      if i < |front| { InUnion(front, i, n); }
    }
  }

  lemma LastLevelIsNew(g: Graph, levels: seq<seq<Name>>)
    requires Levelled(g, levels) && levels != []
    ensures var front, last := levels[..|levels| - 1], levels[|levels| - 1];
            Unique(last) && forall n | n in last :: n !in Union(front)
  {
    assert LevelOk(g, levels, |levels| - 1);
  }

  lemma {:induction false} FlattenLevels(g: Graph, levels: seq<seq<Name>>)
    requires Levelled(g, levels)
    ensures Unique(Flatten(levels)) && SetOf(Flatten(levels)) == Union(levels)
    decreases |levels|
  {
    if levels != [] {
      var front, last := levels[..|levels| - 1], levels[|levels| - 1];
      LevelledFront(g, levels);
      FlattenLevels(g, front);
      LastLevelIsNew(g, levels);
      assert forall n | n in last :: n !in SetOf(Flatten(front));
      UniqueConcat(Flatten(front), last);
      UnionSnoc(front, last);
      assert levels == front + [last];
      assert SetOf(Flatten(front) + last) == SetOf(Flatten(front)) + SetOf(last);
    }
  }

  lemma LastLevelDepends(g: Graph, levels: seq<seq<Name>>, u: Name, v: Name)
    requires Levelled(g, levels) && levels != [] && v in levels[|levels| - 1] && g.Edge(u, v)
    ensures u in Union(levels[..|levels| - 1])
  {
    assert LevelOk(g, levels, |levels| - 1);
  }

  lemma PlaceOf(xs: seq<Name>, n: Name) returns (i: nat)
    requires n in xs
    ensures i < |xs| && xs[i] == n
  {
    i :| i < |xs| && xs[i] == n;
  }

  lemma InFlatFront(g: Graph, levels: seq<seq<Name>>, u: Name)
    requires Levelled(g, levels) && levels != [] && u in Union(levels[..|levels| - 1])
    ensures u in Flatten(levels[..|levels| - 1])
  {
    LevelledFront(g, levels);
    FlattenLevels(g, levels[..|levels| - 1]);
    assert u in SetOf(Flatten(levels[..|levels| - 1]));
  }

  lemma PlacesInConcat(a: seq<Name>, b: seq<Name>, u: Name, v: Name) returns (i: nat, j: nat)
    requires u in a && v in b
    ensures i < j < |a + b| && (a + b)[i] == u && (a + b)[j] == v
  {
    i := PlaceOf(a, u);
    var k := PlaceOf(b, v);
    j := |a| + k;
  }

  lemma SortedInLastLevel(g: Graph, levels: seq<seq<Name>>, u: Name, v: Name) returns (i: nat, j: nat)
    requires Levelled(g, levels) && levels != [] && v in levels[|levels| - 1] && g.Edge(u, v)
    ensures i < j < |Flatten(levels)| && Flatten(levels)[i] == u && Flatten(levels)[j] == v
  {
    LastLevelDepends(g, levels, u, v);
    InFlatFront(g, levels, u);
    i, j := PlacesInConcat(Flatten(levels[..|levels| - 1]), levels[|levels| - 1], u, v);
  }

  /** A dependency comes before its consumer. */
  lemma {:induction false} FlattenSorted(g: Graph, levels: seq<seq<Name>>, u: Name, v: Name) returns (i: nat, j: nat)
    requires Levelled(g, levels) && v in Union(levels) && g.Edge(u, v)
    ensures i < j < |Flatten(levels)| && Flatten(levels)[i] == u && Flatten(levels)[j] == v
    decreases |levels|
  {
    if v in levels[|levels| - 1] {
      i, j := SortedInLastLevel(g, levels, u, v);
    } else {
      LevelledFront(g, levels);
      i, j := FlattenSorted(g, levels[..|levels| - 1], u, v);
    }
  }

  /** Place x of level i comes before place y of level j. */
  lemma {:induction false} FlattenOrdered(levels: seq<seq<Name>>, i: nat, x: nat, j: nat, y: nat) returns (p: nat, q: nat)
    requires j < |levels| && y < |levels[j]| && (i < j || (i == j && x < y)) && x < |levels[i]|
    ensures p < q < |Flatten(levels)| && Flatten(levels)[p] == levels[i][x] && Flatten(levels)[q] == levels[j][y]
    decreases |levels|
  {
    var front, last := levels[..|levels| - 1], levels[|levels| - 1];
    if j < |levels| - 1 {
      p, q := FlattenOrdered(front, i, x, j, y);
    } else {
      q := |Flatten(front)| + y;
      if i == j { p := |Flatten(front)| + x; } else { p := InFlatten(front, i, x); }
    }
  }

  lemma {:induction false} InFlatten(levels: seq<seq<Name>>, i: nat, x: nat) returns (p: nat)
    requires i < |levels| && x < |levels[i]|
    ensures p < |Flatten(levels)| && Flatten(levels)[p] == levels[i][x]
    decreases |levels|
  {
    var front := levels[..|levels| - 1];
    if i < |levels| - 1 { p := InFlatten(front, i, x); } else { p := |Flatten(front)| + x; }
  }

  /** The order in which a scope counts its steps: by their longest dependency chains, and as declared
      among those with equally long ones. */
  ghost predicate CountedBefore(g: Graph, u: Name, v: Name) {
    exists k: nat, l: nat :: LongestChain(g, u, k) && LongestChain(g, v, l) && (k < l || (k == l && DeclaredBefore(g, u, v)))
  }

  lemma OneLongest(g: Graph, v: Name, k: nat, l: nat)
    requires LongestChain(g, v, k) && LongestChain(g, v, l)
    ensures k == l
  {
  }

  lemma DeclaredOnce(g: Graph, u: Name, v: Name)
    requires g.Valid() && DeclaredBefore(g, u, v)
    ensures u != v && !DeclaredBefore(g, v, u)
  {
  }

  lemma PlaceInLevels(g: Graph, levels: seq<seq<Name>>, v: Name) returns (i: nat, x: nat)
    requires LevelsOf(g, levels) && v in g.nodes
    ensures i < |levels| && x < |levels[i]| && levels[i][x] == v && LongestChain(g, v, i + 1)
  {
    assert v in Union(levels);
    i :| i < |levels| && v in levels[i];
    x := PlaceOf(levels[i], v);
  }

  lemma CountedInOrder(g: Graph, levels: seq<seq<Name>>, u: Name, v: Name) returns (p: nat, q: nat)
    requires g.Valid() && LevelsOf(g, levels) && u in g.nodes && v in g.nodes && CountedBefore(g, u, v)
    ensures p < q < |Flatten(levels)| && Flatten(levels)[p] == u && Flatten(levels)[q] == v
  {
    var k, l :| LongestChain(g, u, k) && LongestChain(g, v, l) && (k < l || (k == l && DeclaredBefore(g, u, v)));
    var i, x := PlaceInLevels(g, levels, u);
    var j, y := PlaceInLevels(g, levels, v);
    OneLongest(g, u, k, i + 1);
    OneLongest(g, v, l, j + 1);
    if k == l {
      DeclaredOnce(g, u, v);
      assert InDeclaredOrder(g, levels[i]);
    }
    p, q := FlattenOrdered(levels, i, x, j, y);
  }

  ghost function Sum(totals: map<Scope, nat>): nat
    decreases |totals.Keys|
  {
    if totals.Keys == {} then 0
    else var s :| s in totals.Keys; totals[s] + Sum(totals - {s})
  }

  lemma {:induction false} SumPick(totals: map<Scope, nat>, s: Scope)
    requires s in totals
    ensures Sum(totals) == totals[s] + Sum(totals - {s})
    decreases |totals.Keys|
  {
    var t :| t in totals.Keys && Sum(totals) == totals[t] + Sum(totals - {t});
    if t != s {
      SumPick(totals - {t}, s);
      SumPick(totals - {s}, t);
      assert totals - {t} - {s} == totals - {s} - {t};
    }
  }

  /** The steps grouped by scope, each group in order. */
  ghost predicate Grouped(scopes: map<Name, Scope>, flat: seq<Name>, byScope: map<Scope, seq<Name>>) {
    && (forall n | n in flat :: ScopeOf(scopes, n) in byScope)
    && forall s | s in byScope :: byScope[s] == Within(scopes, flat, s)
  }

  function Lengths(byScope: map<Scope, seq<Name>>): map<Scope, nat> {
    map s | s in byScope :: |byScope[s]|
  }

  function AddTo(byScope: map<Scope, seq<Name>>, s: Scope, n: Name): map<Scope, seq<Name>> {
    byScope[s := (if s in byScope then byScope[s] else []) + [n]]
  }

  lemma GroupNext(scopes: map<Name, Scope>, flat: seq<Name>, n: Name, byScope: map<Scope, seq<Name>>)
    requires Grouped(scopes, flat, byScope)
    ensures Grouped(scopes, flat + [n], AddTo(byScope, ScopeOf(scopes, n), n))
  {
    var s := ScopeOf(scopes, n);
    var longer := flat + [n];
    assert longer[..|flat|] == flat;
    if s !in byScope { WithinNone(scopes, flat, s); }
  }

  lemma LengthsNext(byScope: map<Scope, seq<Name>>, s: Scope, n: Name)
    ensures Total(AddTo(byScope, s, n)) == Total(byScope) + 1
  {
    var before, after := Lengths(byScope), Lengths(AddTo(byScope, s, n));
    SumPick(after, s);
    assert after - {s} == before - {s};
    if s in byScope { SumPick(before, s); } else { assert before - {s} == before; }
  }

  /** What `_stamp_scope_metadata` writes on the steps and on the dag. */
  datatype Stamps = Stamps(index: map<Name, nat>, total: map<Name, nat>, totals: map<Scope, nat>)

  ghost predicate Indexed(g: Graph, scopes: map<Name, Scope>, st: Stamps, s: Scope, k: nat)
    requires g.nodes.Keys <= st.index.Keys
  {
    exists n | n in g.nodes :: ScopeOf(scopes, n) == s && st.index[n] == k
  }

  /** Per scope, the indices are a bijection from its steps onto `0..total-1`; the totals add up to
      all the steps; a dependency within the scope has the smaller index; and steps are counted by their
      longest dependency chains, then as declared. */
  ghost predicate StampsOk(g: Graph, scopes: map<Name, Scope>, st: Stamps) {
    && st.index.Keys == st.total.Keys == g.nodes.Keys
    && (forall n | n in g.nodes ::
          ScopeOf(scopes, n) in st.totals && st.index[n] < st.total[n] == st.totals[ScopeOf(scopes, n)])
    && (forall m, n | m in g.nodes && n in g.nodes && m != n ::
          ScopeOf(scopes, m) == ScopeOf(scopes, n) ==> st.index[m] != st.index[n])
    && (forall s | s in st.totals :: forall k: nat :: k < st.totals[s] ==> Indexed(g, scopes, st, s, k))
    && Sum(st.totals) == |g.names|
    && (forall u, v | g.Edge(u, v) && ScopeOf(scopes, u) == ScopeOf(scopes, v) :: st.index[u] < st.index[v])
    && forall u, v | u in g.nodes && v in g.nodes && ScopeOf(scopes, u) == ScopeOf(scopes, v) ::
         CountedBefore(g, u, v) ==> st.index[u] < st.index[v]
  }

  /** The stamps agree with the groups. */
  ghost predicate StampedFrom(byScope: map<Scope, seq<Name>>, st: Stamps, s: Scope)
    requires s in byScope
  {
    forall k :: 0 <= k < |byScope[s]| ==>
      && byScope[s][k] in st.index && st.index[byScope[s][k]] == k
      && byScope[s][k] in st.total && st.total[byScope[s][k]] == |byScope[s]|
  }

  lemma FlatCount(flat: seq<Name>, names: seq<Name>)
    requires Unique(flat) && Unique(names) && forall n :: n in flat <==> n in names
    ensures |flat| == |names|
  {
    ElementCount(flat);
    ElementCount(names);
    assert (set n | n in flat) == (set n | n in names);
  }

  lemma StampOf(scopes: map<Name, Scope>, flat: seq<Name>, byScope: map<Scope, seq<Name>>, st: Stamps, n: Name)
    requires Grouped(scopes, flat, byScope) && n in flat && StampedFrom(byScope, st, ScopeOf(scopes, n))
    ensures var s := ScopeOf(scopes, n);
            && n in st.index && n in st.total && st.index[n] < |byScope[s]| == st.total[n]
            && byScope[s][st.index[n]] == n
  {
    WithinMembers(scopes, flat, ScopeOf(scopes, n));
  }

  lemma InOrder(scopes: map<Name, Scope>, flat: seq<Name>, byScope: map<Scope, seq<Name>>, st: Stamps, i: nat, j: nat)
    requires Grouped(scopes, flat, byScope) && i < j < |flat| && ScopeOf(scopes, flat[i]) == ScopeOf(scopes, flat[j])
    requires ScopeOf(scopes, flat[i]) in byScope && StampedFrom(byScope, st, ScopeOf(scopes, flat[i]))
    ensures flat[i] in st.index && flat[j] in st.index && st.index[flat[i]] < st.index[flat[j]]
  {
    var x, y := WithinKeepsOrder(scopes, flat, ScopeOf(scopes, flat[i]), i, j);
  }

  lemma StampsFromGroups(g: Graph, levels: seq<seq<Name>>, scopes: map<Name, Scope>,
        byScope: map<Scope, seq<Name>>, st: Stamps)
    requires g.Valid() && LevelsOf(g, levels) && Grouped(scopes, Flatten(levels), byScope)
    requires Total(byScope) == |Flatten(levels)| && st.totals == Lengths(byScope)
    requires st.index.Keys == st.total.Keys == g.nodes.Keys
    requires forall s | s in byScope :: StampedFrom(byScope, st, s)
    ensures StampsOk(g, scopes, st)
  {
    var flat := Flatten(levels);
    FlattenLevels(g, levels);
    FlatCount(flat, g.names);
    forall n | n in g.nodes
      ensures var s := ScopeOf(scopes, n);
              s in byScope && st.index[n] < |byScope[s]| == st.total[n] && byScope[s][st.index[n]] == n
    {
      assert n in flat;
      StampOf(scopes, flat, byScope, st, n);
    }
    forall s, k: nat | s in st.totals && k < st.totals[s] ensures Indexed(g, scopes, st, s, k) {
      WithinMembers(scopes, flat, s);
      assert StampedFrom(byScope, st, s) && byScope[s][k] in byScope[s];
    }
    forall u, v | g.Edge(u, v) && ScopeOf(scopes, u) == ScopeOf(scopes, v) ensures st.index[u] < st.index[v] {
      var i, j := FlattenSorted(g, levels, u, v);
      InOrder(scopes, flat, byScope, st, i, j);
    }
    forall u, v | u in g.nodes && v in g.nodes && ScopeOf(scopes, u) == ScopeOf(scopes, v) && CountedBefore(g, u, v)
      ensures st.index[u] < st.index[v]
    {
      var i, j := CountedInOrder(g, levels, u, v);
      InOrder(scopes, flat, byScope, st, i, j);
    }
  }

  ghost predicate GroupedTo(scopes: map<Name, Scope>, flat: seq<Name>, i: nat, byScope: map<Scope, seq<Name>>)
    requires i <= |flat|
  {
    Grouped(scopes, flat[..i], byScope) && Total(byScope) == i
  }

  ghost function Total(byScope: map<Scope, seq<Name>>): nat {
    Sum(Lengths(byScope))
  }

  lemma GroupOne(scopes: map<Name, Scope>, flat: seq<Name>, i: nat, byScope: map<Scope, seq<Name>>)
    requires i < |flat| && GroupedTo(scopes, flat, i, byScope)
    ensures GroupedTo(scopes, flat, i + 1, AddTo(byScope, ScopeOf(scopes, flat[i]), flat[i]))
  {
    assert flat[..i + 1] == flat[..i] + [flat[i]];
    GroupNext(scopes, flat[..i], flat[i], byScope);
    LengthsNext(byScope, ScopeOf(scopes, flat[i]), flat[i]);
  }

  method GroupByScope(flat: seq<Name>, scopes: map<Name, Scope>) returns (byScope: map<Scope, seq<Name>>)
    ensures Grouped(scopes, flat, byScope) && Total(byScope) == |flat|
  {
    byScope := map[];
    for i := 0 to |flat|
      invariant GroupedTo(scopes, flat, i, byScope)
    {
      GroupOne(scopes, flat, i, byScope);
      byScope := AddTo(byScope, ScopeOf(scopes, flat[i]), flat[i]);
    }
    assert flat[..|flat|] == flat;
  }

  /** `after` is `before` with `value(k)` written at the first `i` names. */
  ghost predicate Written(names: seq<Name>, i: nat, value: nat -> nat, before: map<Name, nat>, after: map<Name, nat>)
    requires i <= |names|
  {
    && after.Keys == before.Keys + SetOf(names[..i])
    && (forall k: nat :: k < i ==> after[names[k]] == value(k))
    && forall n | n in before && n !in names :: after[n] == before[n]
  }

  lemma WriteNext(names: seq<Name>, i: nat, value: nat -> nat, before: map<Name, nat>, after: map<Name, nat>)
    requires Unique(names) && i < |names| && Written(names, i, value, before, after)
    ensures Written(names, i + 1, value, before, after[names[i] := value(i)])
  {
    assert names[..i + 1] == names[..i] + [names[i]];
    assert SetOf(names[..i + 1]) == SetOf(names[..i]) + {names[i]};
    assert names[i] in names;
  }

  /** Enumerating one group. */
  method StampGroup(names: seq<Name>, index0: map<Name, nat>, total0: map<Name, nat>)
    returns (index: map<Name, nat>, total: map<Name, nat>)
    requires Unique(names)
    ensures Written(names, |names|, k => k, index0, index)
    ensures Written(names, |names|, _ => |names|, total0, total)
  {
    index, total := index0, total0;
    assert names[..0] == [];
    for i := 0 to |names|
      invariant Written(names, i, k => k, index0, index)
      invariant Written(names, i, _ => |names|, total0, total)
    {
      WriteNext(names, i, k => k, index0, index);
      WriteNext(names, i, _ => |names|, total0, total);
      index, total := index[names[i] := i], total[names[i] := |names|];
    }
  }

  lemma GroupsApart(scopes: map<Name, Scope>, flat: seq<Name>, byScope: map<Scope, seq<Name>>, s: Scope, t: Scope)
    requires Grouped(scopes, flat, byScope) && s in byScope && t in byScope && s != t
    ensures forall k :: 0 <= k < |byScope[s]| ==> byScope[s][k] !in byScope[t]
  {
    WithinMembers(scopes, flat, s);
    WithinMembers(scopes, flat, t);
    forall k | 0 <= k < |byScope[s]| ensures byScope[s][k] !in byScope[t] {
      assert byScope[s][k] in byScope[s];
    }
  }

  /** The keys stamped so far are the members of the groups that are not left. */
  ghost predicate KeysDone(scopes: map<Name, Scope>, flat: seq<Name>, left: set<Scope>, keys: set<Name>) {
    forall n :: n in keys <==> n in flat && ScopeOf(scopes, n) !in left
  }

  ghost predicate StampedSo(scopes: map<Name, Scope>, flat: seq<Name>, byScope: map<Scope, seq<Name>>,
                            left: set<Scope>, index: map<Name, nat>, total: map<Name, nat>)
  {
    && KeysDone(scopes, flat, left, index.Keys) && KeysDone(scopes, flat, left, total.Keys)
    && forall s | s in byScope && s !in left :: StampedFrom(byScope, Stamps(index, total, map[]), s)
  }

  lemma GroupKeys(scopes: map<Name, Scope>, flat: seq<Name>, byScope: map<Scope, seq<Name>>, left: set<Scope>, s: Scope,
                  keys: set<Name>)
    requires Grouped(scopes, flat, byScope) && s in left && left <= byScope.Keys && KeysDone(scopes, flat, left, keys)
    ensures KeysDone(scopes, flat, left - {s}, keys + SetOf(byScope[s]))
  {
    WithinMembers(scopes, flat, s);
  }

  lemma GroupStamped(scopes: map<Name, Scope>, flat: seq<Name>, byScope: map<Scope, seq<Name>>, left: set<Scope>, s: Scope,
                     index: map<Name, nat>, total: map<Name, nat>, index': map<Name, nat>, total': map<Name, nat>)
    requires Grouped(scopes, flat, byScope) && s in left && left <= byScope.Keys
    requires StampedSo(scopes, flat, byScope, left, index, total)
    requires Written(byScope[s], |byScope[s]|, k => k, index, index')
    requires Written(byScope[s], |byScope[s]|, _ => |byScope[s]|, total, total')
    ensures StampedSo(scopes, flat, byScope, left - {s}, index', total')
  {
    assert byScope[s][..|byScope[s]|] == byScope[s];
    GroupKeys(scopes, flat, byScope, left, s, index.Keys);
    GroupKeys(scopes, flat, byScope, left, s, total.Keys);
    forall t | t in byScope && t !in left - {s} ensures StampedFrom(byScope, Stamps(index', total', map[]), t) {
      if t != s {
        GroupsApart(scopes, flat, byScope, t, s);
      }
    }
  }

  method StampScopes(g: Graph, levels: seq<seq<Name>>, scopes: map<Name, Scope>) returns (st: Stamps)
    requires g.Valid() && LevelsOf(g, levels)
    ensures StampsOk(g, scopes, st)
  {
    var flat := Flatten(levels);
    FlattenLevels(g, levels);
    var byScope := GroupByScope(flat, scopes);
    var index, total: map<Name, nat> := map[], map[];
    var left := byScope.Keys;
    while left != {}
      invariant left <= byScope.Keys && StampedSo(scopes, flat, byScope, left, index, total)
    {
      var s :| s in left;
      WithinMembers(scopes, flat, s);
      ghost var index0, total0 := index, total;
      index, total := StampGroup(byScope[s], index, total);
      GroupStamped(scopes, flat, byScope, left, s, index0, total0, index, total);
      left := left - {s};
    }
    st := Stamps(index, total, Lengths(byScope));
    StampsComplete(g, levels, scopes, byScope, st);
  }

  lemma AllStamped(g: Graph, levels: seq<seq<Name>>, scopes: map<Name, Scope>, keys: set<Name>)
    requires LevelsOf(g, levels) && KeysDone(scopes, Flatten(levels), {}, keys)
    ensures keys == g.nodes.Keys
  {
    FlattenLevels(g, levels);
  }

  lemma StampsComplete(g: Graph, levels: seq<seq<Name>>, scopes: map<Name, Scope>,
        byScope: map<Scope, seq<Name>>, st: Stamps)
    requires g.Valid() && LevelsOf(g, levels) && Grouped(scopes, Flatten(levels), byScope)
    requires Total(byScope) == |Flatten(levels)| && st.totals == Lengths(byScope)
    requires StampedSo(scopes, Flatten(levels), byScope, {}, st.index, st.total)
    ensures StampsOk(g, scopes, st)
  {
    AllStamped(g, levels, scopes, st.index.Keys);
    AllStamped(g, levels, scopes, st.total.Keys);
    forall s | s in byScope ensures StampedFrom(byScope, st, s) {
      assert StampedFrom(byScope, Stamps(st.index, st.total, map[]), s);
    }
    StampsFromGroups(g, levels, scopes, byScope, st);
  }
}
