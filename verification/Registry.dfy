/** `PipelineRegistry`: pipelines registered by name together with everything they include. */
module Registry {
  import opened Wrappers

  type Name = string

  /** The identity of a definition: `is` compares these, dictionary keys are names. */
  type Id = nat

  datatype Def = Def(name: Name, includes: seq<Id>)

  /** All definitions there are. */
  datatype World = World(defs: map<Id, Def>) {
    ghost predicate Closed() {
      forall id, inc | id in defs && inc in defs[id].includes :: inc in defs
    }

    function NameOf(id: Id): Name
      requires id in defs
    {
      defs[id].name
    }

    ghost predicate Includes(a: Id, b: Id) {
      a in defs && b in defs && b in defs[a].includes
    }
  }

  // ---------------------------------------------------------------------------
  // The include tree
  // ---------------------------------------------------------------------------

  /** A chain of includes that starts at the root. */
  ghost predicate IsPath(w: World, root: Id, path: seq<Id>) {
    && path != [] && path[0] == root && root in w.defs
    && forall i :: 0 < i < |path| ==> w.Includes(path[i - 1], path[i])
  }

  ghost predicate Reaches(w: World, root: Id, id: Id) {
    exists path :: IsPath(w, root, path) && path[|path| - 1] == id
  }

  ghost predicate IncludeCycle(w: World, root: Id) {
    exists path, i, j :: IsPath(w, root, path) && 0 <= i < j < |path| && path[i] == path[j]
  }

  ghost predicate TwoInstances(w: World, root: Id) {
    exists a, b :: a != b && Reaches(w, root, a) && Reaches(w, root, b)
                   && a in w.defs && b in w.defs && w.NameOf(a) == w.NameOf(b)
  }

  function SetOf(path: seq<Id>): set<Id> {
    set id | id in path
  }

  lemma PathPush(w: World, root: Id, path: seq<Id>, id: Id)
    requires IsPath(w, root, path) && w.Includes(path[|path| - 1], id)
    ensures IsPath(w, root, path + [id]) && Reaches(w, root, id)
  {
    var longer := path + [id];
    forall i | 0 < i < |longer| ensures w.Includes(longer[i - 1], longer[i]) {
      if i < |path| { assert w.Includes(path[i - 1], path[i]); }
    }
    assert longer[|longer| - 1] == id;
  }

  lemma EndIsReached(w: World, root: Id, path: seq<Id>)
    requires IsPath(w, root, path)
    ensures Reaches(w, root, path[|path| - 1]) && path[|path| - 1] in w.defs
  {
    if |path| > 1 { assert w.Includes(path[|path| - 2], path[|path| - 1]); }
  }

  /** Every definition in `order` comes after everything it includes. */
  ghost predicate Finished(w: World, order: seq<Id>) {
    forall i {:trigger order[i]} :: 0 <= i < |order| ==> IncludesFinished(w, order[..i], order[i])
  }

  ghost predicate IncludesFinished(w: World, before: seq<Id>, id: Id) {
    id in w.defs && id !in before && forall inc | inc in w.defs[id].includes :: inc in before
  }

  lemma FinishedPush(w: World, order: seq<Id>, id: Id)
    requires Finished(w, order) && IncludesFinished(w, order, id)
    ensures Finished(w, order + [id])
  {
    var longer := order + [id];
    forall i | 0 <= i < |longer| ensures IncludesFinished(w, longer[..i], longer[i]) {
      assert longer[..i] == if i < |order| then order[..i] else order;
    }
  }

  lemma InOrder(order: seq<Id>, id: Id) returns (i: nat)
    requires id in order
    ensures i < |order| && order[i] == id
  {
    i :| i < |order| && order[i] == id;
  }

  /** Along a path the place in a finishing order goes down, so nothing repeats. */
  lemma {:induction false} PathGoesDown(w: World, root: Id, order: seq<Id>, path: seq<Id>, i: nat, j: nat)
    returns (p: nat, q: nat)
    requires Finished(w, order) && IsPath(w, root, path) && root in order && i <= j < |path|
    ensures p < |order| && q < |order| && order[p] == path[i] && order[q] == path[j]
    ensures i < j ==> q < p
    decreases j
  {
    if j == 0 {
      p := InOrder(order, root);
      q := p;
    } else {
      var r, s := PathGoesDown(w, root, order, path, if i < j then i else j - 1, j - 1);
      assert w.Includes(path[j - 1], path[j]) && IncludesFinished(w, order[..s], order[s]);
      q := InOrder(order[..s], path[j]);
      p := if i < j then r else q;
    }
  }

  /** A finished root reaches only finished definitions, and without a cycle. */
  lemma FinishedTree(w: World, root: Id, order: seq<Id>)
    requires Finished(w, order) && root in order
    ensures !IncludeCycle(w, root)
    ensures forall id | Reaches(w, root, id) :: id in order
  {
    if path, i, j :| IsPath(w, root, path) && 0 <= i < j < |path| && path[i] == path[j] {
      var p, q := PathGoesDown(w, root, order, path, i, j);
    }
    forall id | Reaches(w, root, id) ensures id in order {
      var path :| IsPath(w, root, path) && path[|path| - 1] == id;
      var p, q := PathGoesDown(w, root, order, path, |path| - 1, |path| - 1);
    }
  }

  datatype CollectError = Cycle | MultipleInstances

  /** A definition is entered under its name. */
  ghost predicate Entered(w: World, root: Id, pipelines: map<Name, Id>, id: Id) {
    id in w.defs && w.NameOf(id) in pipelines && pipelines[w.NameOf(id)] == id && Reaches(w, root, id)
  }

  /** The invariant of the search.  It is kept closed: `Visit` only hands it on, and the lemmas about
      it look inside with `OpenConsistent`. */
  ghost predicate Consistent(w: World, root: Id, pipelines: map<Name, Id>, visiting: set<Id>, order: seq<Id>) {
    forall k: nat {:trigger Opened(k)} :: Opened(k) ==> AllEntered(w, root, pipelines, visiting, order)
  }

  lemma OpenConsistent(w: World, root: Id, pipelines: map<Name, Id>, visiting: set<Id>, order: seq<Id>)
    ensures Consistent(w, root, pipelines, visiting, order) <==> AllEntered(w, root, pipelines, visiting, order)
  {
    assert Opened(0);
  }

  /** Exactly the definitions being visited and those finished are entered. */
  ghost predicate AllEntered(w: World, root: Id, pipelines: map<Name, Id>, visiting: set<Id>, order: seq<Id>) {
    && w.Closed() && root in w.defs
    && (forall id | id in visiting :: Entered(w, root, pipelines, id))
    && (forall id | id in order :: Entered(w, root, pipelines, id))
    && (forall n {:trigger n in pipelines} | n in pipelines ::
          (pipelines[n] in visiting || pipelines[n] in order)
          && pipelines[n] in w.defs && w.NameOf(pipelines[n]) == n)
    && (forall id | id in order :: id !in visiting)
    && Finished(w, order)
  }

  ghost function Unseen(w: World, visiting: set<Id>, order: seq<Id>): set<Id> {
    w.defs.Keys - visiting - SetOf(order)
  }

  lemma EnterKeeps(w: World, root: Id, pipelines: map<Name, Id>, visiting: set<Id>, order: seq<Id>, id: Id)
    requires Consistent(w, root, pipelines, visiting, order)
    requires id in w.defs && w.NameOf(id) !in pipelines && Reaches(w, root, id)
    ensures Consistent(w, root, pipelines[w.NameOf(id) := id], visiting + {id}, order)
    ensures id !in visiting && id !in order
    ensures Unseen(w, visiting + {id}, order) < Unseen(w, visiting, order)
  {
    OpenConsistent(w, root, pipelines, visiting, order);
    OpenConsistent(w, root, pipelines[w.NameOf(id) := id], visiting + {id}, order);
    assert !Entered(w, root, pipelines, id);
    assert id in Unseen(w, visiting, order);
  }

  lemma LeaveKeeps(w: World, root: Id, pipelines: map<Name, Id>, visiting: set<Id>, order: seq<Id>, id: Id)
    requires Consistent(w, root, pipelines, visiting + {id}, order) && id !in visiting
    requires id in w.defs && forall inc | inc in w.defs[id].includes :: inc in order
    ensures Consistent(w, root, pipelines, visiting, order + [id])
    ensures Unseen(w, visiting, order + [id]) == Unseen(w, visiting + {id}, order)
  {
    OpenConsistent(w, root, pipelines, visiting + {id}, order);
    OpenConsistent(w, root, pipelines, visiting, order + [id]);
    assert id in visiting + {id};
    FinishedPush(w, order, id);
    assert Entered(w, root, pipelines, id);
  }

  lemma OtherInstance(w: World, root: Id, pipelines: map<Name, Id>, visiting: set<Id>, order: seq<Id>, id: Id)
    requires Consistent(w, root, pipelines, visiting, order)
    requires id in w.defs && w.NameOf(id) in pipelines && Reaches(w, root, id)
    ensures pipelines[w.NameOf(id)] != id ==> TwoInstances(w, root)
    ensures pipelines[w.NameOf(id)] == id ==> id in visiting || id in order
  {
    OpenConsistent(w, root, pipelines, visiting, order);
    var other := pipelines[w.NameOf(id)];
    assert Entered(w, root, pipelines, other);
  }

  class Collector {
    const w: World
    const root: Id
    var pipelines: map<Name, Id>
    var visiting: set<Id>
    ghost var order: seq<Id>

    constructor (w: World, root: Id)
      ensures this.w == w && this.root == root && pipelines == map[] && visiting == {} && order == []
    {
      this.w, this.root := w, root;
      pipelines, visiting, order := map[], {}, [];
    }

    ghost predicate Valid()
      reads this
    {
      Consistent(w, root, pipelines, visiting, order)
    }

    ghost function Left(): set<Id>
      reads this
    {
      Unseen(w, visiting, order)
    }

    /** `visit`; `path` leads from the root to the definition. */
    method Visit(id: Id, ghost path: seq<Id>) returns (error: Option<CollectError>)
      requires Valid() && w.Closed() && IsPath(w, root, path) && path[|path| - 1] == id
      requires visiting == SetOf(path[..|path| - 1])
      modifies this
      ensures error.None? ==> Valid() && visiting == old(visiting) && old(order) <= order && id in order
      ensures error.None? ==> Left() <= old(Left())
      ensures error == Some(Cycle) ==> IncludeCycle(w, root)
      ensures error == Some(MultipleInstances) ==> TwoInstances(w, root)
      decreases Left()
    {
      EndIsReached(w, root, path);
      if id in visiting {
        return Some(Cycle);
      }
      var def := w.defs[id];
      if def.name in pipelines {
        OtherInstance(w, root, pipelines, visiting, order, id);
        return if pipelines[def.name] != id then Some(MultipleInstances) else None;
      }
      EnterKeeps(w, root, pipelines, visiting, order, id);
      ghost var outside := visiting;
      pipelines, visiting := pipelines[def.name := id], visiting + {id};
      for i := 0 to |def.includes|
        invariant Valid() && visiting == outside + {id} && old(order) <= order
        invariant Left() < old(Left())
        invariant forall k :: 0 <= k < i ==> def.includes[k] in order
      {
        var inc := def.includes[i];
        error := Visit(inc, path + [inc]);
        if error.Some? { return; }
      }
      LeaveKeeps(w, root, pipelines, outside, order, id);
      visiting, order := visiting - {id}, order + [id];
      assert visiting == outside;
      error := None;
    }
  }

  /** `_collect_pipeline_tree`: the definitions reachable through includes, by name, rejected exactly
      when an include cycle or two definitions of one name are reachable. */
  method CollectPipelineTree(w: World, root: Id) returns (r: Result<map<Name, Id>, CollectError>)
    requires w.Closed() && root in w.defs
    ensures r.Ok? <==> !IncludeCycle(w, root) && !TwoInstances(w, root)
    ensures r == Err(Cycle) ==> IncludeCycle(w, root)
    ensures r == Err(MultipleInstances) ==> TwoInstances(w, root)
    ensures r.Ok? ==> (forall n | n in r.value :: r.value[n] in w.defs && w.NameOf(r.value[n]) == n)
    ensures r.Ok? ==> (forall n | n in r.value :: Reaches(w, root, r.value[n]))
    ensures r.Ok? ==> forall id | Reaches(w, root, id) ::
                        id in w.defs && w.NameOf(id) in r.value && r.value[w.NameOf(id)] == id
  {
    var c := new Collector(w, root);
    OpenConsistent(w, root, map[], {}, []);
    assert IsPath(w, root, [root]);
    var error := c.Visit(root, [root]);
    if error.Some? {
      assert error.value == Cycle || error.value == MultipleInstances;
      return Err(error.value);
    }
    OpenConsistent(w, root, c.pipelines, {}, c.order);
    FinishedTree(w, root, c.order);
    return Ok(c.pipelines);
  }

  // ---------------------------------------------------------------------------
  // The registry
  // ---------------------------------------------------------------------------

  datatype AddError = Collecting(error: CollectError) | AlreadyRegistered(name: Name) | BuildFailed(name: Name)

  /** `build_dag` on a definition, as far as the registry knows it. */
  type Dag = string

  /** The definition is registered already, but as another instance. */
  ghost predicate Clashes(w: World, registered: map<Name, Id>, root: Id, id: Id) {
    Reaches(w, root, id) && id in w.defs && w.NameOf(id) in registered && registered[w.NameOf(id)] != id
  }

  /** The definition is new and does not compile. */
  ghost predicate Fails(w: World, build: Id -> Option<Dag>, registered: map<Name, Id>, root: Id, id: Id) {
    Reaches(w, root, id) && id in w.defs && w.NameOf(id) !in registered && build(id).None?
  }

  ghost predicate Collides(w: World, registered: map<Name, Id>, root: Id) {
    exists id :: Clashes(w, registered, root, id)
  }

  ghost predicate SomeBuildFails(w: World, build: Id -> Option<Dag>, registered: map<Name, Id>, root: Id) {
    exists id :: Fails(w, build, registered, root, id)
  }

  /** The error tells what is wrong, and that what is checked before it is not. */
  ghost predicate ErrorIsRight(w: World, build: Id -> Option<Dag>, registered: map<Name, Id>, root: Id, error: AddError) {
    match error
    case Collecting(Cycle) => IncludeCycle(w, root)
    case Collecting(MultipleInstances) => TwoInstances(w, root)
    case AlreadyRegistered(name) =>
      && !IncludeCycle(w, root) && !TwoInstances(w, root)
      && exists id :: Clashes(w, registered, root, id) && w.NameOf(id) == name
    case BuildFailed(name) =>
      && !IncludeCycle(w, root) && !TwoInstances(w, root) && !Collides(w, registered, root)
      && exists id :: Fails(w, build, registered, root, id) && w.NameOf(id) == name
  }

  /** Definitions and compiled Dags under the same names, one instance per name, and everything that
      a registered definition includes is registered. */
  ghost predicate RegistryOk(w: World, build: Id -> Option<Dag>, pipelines: map<Name, Id>, dags: map<Name, Dag>) {
    && pipelines.Keys == dags.Keys
    && (forall n | n in pipelines :: RegisteredOk(w, build, pipelines, dags, n))
  }

  ghost predicate RegisteredOk(w: World, build: Id -> Option<Dag>, pipelines: map<Name, Id>, dags: map<Name, Dag>, n: Name)
    requires n in pipelines && pipelines.Keys == dags.Keys
  {
    && pipelines[n] in w.defs && w.NameOf(pipelines[n]) == n
    && build(pipelines[n]) == Some(dags[n])
    && forall inc | inc in w.defs[pipelines[n]].includes ::
         inc in w.defs && w.NameOf(inc) in pipelines && pipelines[w.NameOf(inc)] == inc
  }

  /** The candidates are the reachable definitions under their names. */
  ghost predicate IsTree(w: World, root: Id, candidates: map<Name, Id>) {
    && (forall n | n in candidates ::
          candidates[n] in w.defs && w.NameOf(candidates[n]) == n && Reaches(w, root, candidates[n]))
    && forall id | Reaches(w, root, id) ::
         id in w.defs && w.NameOf(id) in candidates && candidates[w.NameOf(id)] == id
  }

  /** Everything reachable from a registered definition is registered, and under its own identity. */
  lemma {:induction false} RegistryIsClosed(w: World, build: Id -> Option<Dag>, pipelines: map<Name, Id>,
                                            dags: map<Name, Dag>, n: Name, path: seq<Id>)
    requires RegistryOk(w, build, pipelines, dags) && n in pipelines && IsPath(w, pipelines[n], path)
    ensures var id := path[|path| - 1];
            id in w.defs && w.NameOf(id) in pipelines && pipelines[w.NameOf(id)] == id
    decreases |path|
  {
    assert RegisteredOk(w, build, pipelines, dags, n);
    if |path| > 1 {
      var before := path[..|path| - 1];
      forall i | 0 < i < |before| ensures w.Includes(before[i - 1], before[i]) {
        assert w.Includes(path[i - 1], path[i]);
      }
      RegistryIsClosed(w, build, pipelines, dags, n, before);
      assert w.Includes(path[|path| - 2], path[|path| - 1]);
      assert RegisteredOk(w, build, pipelines, dags, w.NameOf(path[|path| - 2]));
    }
  }

  lemma IncludedIsReached(w: World, root: Id, id: Id, inc: Id)
    requires Reaches(w, root, id) && w.Includes(id, inc)
    ensures Reaches(w, root, inc)
  {
    var path :| IsPath(w, root, path) && path[|path| - 1] == id;
    PathPush(w, root, path, inc);
  }

  lemma CommitOne(w: World, build: Id -> Option<Dag>, root: Id, candidates: map<Name, Id>,
                  after: map<Name, Id>, dags: map<Name, Dag>, n: Name)
    requires w.Closed() && IsTree(w, root, candidates) && after.Keys == dags.Keys && n in candidates
    requires forall m | m in candidates :: m in after && after[m] == candidates[m]
    requires build(candidates[n]) == Some(dags[n])
    ensures RegisteredOk(w, build, after, dags, n)
  {
    forall inc | inc in w.defs[after[n]].includes
      ensures inc in w.defs && w.NameOf(inc) in after && after[w.NameOf(inc)] == inc
    {
      IncludedIsReached(w, root, after[n], inc);
    }
  }

  /** Committing a whole tree keeps the registry closed under includes. */
  lemma CommitKeeps(w: World, build: Id -> Option<Dag>, pipelines: map<Name, Id>, dags: map<Name, Dag>,
                    root: Id, candidates: map<Name, Id>, after: map<Name, Id>, dags': map<Name, Dag>)
    requires w.Closed() && RegistryOk(w, build, pipelines, dags) && IsTree(w, root, candidates)
    requires after == pipelines + candidates && after.Keys == dags'.Keys
    requires forall n | n in pipelines :: after[n] == pipelines[n] && dags'[n] == dags[n]
    requires forall n | n in candidates && n !in pipelines :: build(candidates[n]) == Some(dags'[n])
    ensures RegistryOk(w, build, after, dags')
  {
    forall n | n in after ensures RegisteredOk(w, build, after, dags', n) {
      if n !in pipelines {
        CommitOne(w, build, root, candidates, after, dags', n);
      }
    }
  }

  lemma Commit(w: World, build: Id -> Option<Dag>, pipelines: map<Name, Id>, dags: map<Name, Dag>,
               root: Id, candidates: map<Name, Id>, added: map<Name, Id>, compiled: map<Name, Dag>)
    requires w.Closed() && RegistryOk(w, build, pipelines, dags) && IsTree(w, root, candidates)
    requires forall n | n in candidates && n in pipelines :: pipelines[n] == candidates[n]
    requires added.Keys == candidates.Keys - pipelines.Keys == compiled.Keys
    requires forall n | n in added :: added[n] == candidates[n] && build(added[n]) == Some(compiled[n])
    ensures RegistryOk(w, build, pipelines + added, dags + compiled)
    ensures pipelines + added == pipelines + candidates
  {
    CommitKeeps(w, build, pipelines, dags, root, candidates, pipelines + added, dags + compiled);
  }

  class PipelineRegistry {
    const w: World
    const build: Id -> Option<Dag>
    var pipelines: map<Name, Id>
    var dags: map<Name, Dag>

    ghost predicate Valid()
      reads this
    {
      w.Closed() && RegistryOk(w, build, pipelines, dags)
    }

    constructor (w: World, build: Id -> Option<Dag>)
      requires w.Closed()
      ensures Valid() && this.w == w && pipelines == map[] && dags == map[]
    {
      this.w, this.build := w, build;
      pipelines, dags := map[], map[];
    }

    /** `_validate_registration_collisions`. */
    method Collision(candidates: map<Name, Id>) returns (name: Option<Name>)
      ensures name.None? <==> forall n | n in candidates && n in pipelines :: pipelines[n] == candidates[n]
      ensures name.Some? ==> name.value in candidates && name.value in pipelines
                             && pipelines[name.value] != candidates[name.value]
    {
      var names := candidates.Keys;
      while names != {}
        invariant names <= candidates.Keys
        invariant forall n | n in candidates && n !in names && n in pipelines :: pipelines[n] == candidates[n]
        decreases names
      {
        var n :| n in names;
        names := names - {n};
        if n in pipelines && pipelines[n] != candidates[n] { return Some(n); }
      }
      return None;
    }

    /** Compiling the new candidates, stopping at the first that fails. */
    method Compile(candidates: map<Name, Id>) returns (r: Result<map<Name, Dag>, Name>)
      ensures r.Ok? ==> r.value.Keys == candidates.Keys
                        && forall n | n in candidates :: build(candidates[n]) == Some(r.value[n])
      ensures r.Err? ==> r.error in candidates && build(candidates[r.error]).None?
    {
      var names, compiled: map<Name, Dag> := candidates.Keys, map[];
      while names != {}
        invariant names <= candidates.Keys && compiled.Keys == candidates.Keys - names
        invariant forall n | n in compiled :: build(candidates[n]) == Some(compiled[n])
        decreases names
      {
        var n :| n in names;
        names := names - {n};
        var dag := build(candidates[n]);
        if dag.None? { return Err(n); }
        compiled := compiled[n := dag.value];
      }
      return Ok(compiled);
    }

    /** `add` registers the whole include tree or, with an error, nothing. */
    method Add(id: Id) returns (r: Result<map<Name, Id>, AddError>)
      requires Valid() && id in w.defs
      modifies this
      ensures Valid()
      ensures r.Ok? <==> !IncludeCycle(w, id) && !TwoInstances(w, id)
                         && !Collides(w, old(pipelines), id)
                         && !SomeBuildFails(w, build, old(pipelines), id)
      ensures r.Err? ==> pipelines == old(pipelines) && dags == old(dags)
      ensures r.Err? ==> ErrorIsRight(w, build, old(pipelines), id, r.error)
      ensures r.Ok? ==> IsTree(w, id, r.value) && pipelines == old(pipelines) + r.value
      ensures forall n | n in old(pipelines) ::
                n in pipelines && pipelines[n] == old(pipelines)[n] && dags[n] == old(dags)[n]
    {
      var tree := CollectPipelineTree(w, id);
      if tree.Err? { return Err(Collecting(tree.error)); }
      var candidates := tree.value;
      var clash := Collision(candidates);
      if clash.Some? {
        assert Clashes(w, pipelines, id, candidates[clash.value]);
        return Err(AlreadyRegistered(clash.value));
      }
      var added := map n | n in candidates && n !in pipelines :: candidates[n];
      var compiled := Compile(added);
      if compiled.Err? {
        assert Fails(w, build, pipelines, id, added[compiled.error]);
        return Err(BuildFailed(compiled.error));
      }
      Commit(w, build, pipelines, dags, id, candidates, added, compiled.value);
      pipelines := pipelines + added;
      dags := dags + compiled.value;
      r := Ok(candidates);
    }
  }
}
