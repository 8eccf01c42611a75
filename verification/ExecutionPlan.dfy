/** The execution plan the builder compiles for every step, and what each engine's `publish` accepts. */
module ExecutionPlan {
  import opened Wrappers
  import F = StepFunctions

  type Name = string

  // ---------------------------------------------------------------------------
  // Types and steps
  // ---------------------------------------------------------------------------

  /** Annotations by the classes the builder tells apart.  `Eager` is a list, set, tuple or dict;
      `Resolved` is the list type given to the output of an EACH step. */
  datatype Type = Untyped | Plain | Eager | Iterable | SyncStream | AsyncStream | Resolved | Union(members: seq<Type>)

  predicate IsSyncStream(t: Type) {
    t.SyncStream? || (t.Union? && exists i :: 0 <= i < |t.members| && IsSyncStream(t.members[i]))
  }

  predicate IsAsyncStream(t: Type) {
    t.AsyncStream? || (t.Union? && exists i :: 0 <= i < |t.members| && IsAsyncStream(t.members[i]))
  }

  predicate IsIterable(t: Type) {
    t.Eager? || t.Iterable? || t.SyncStream? || t.AsyncStream? || t.Resolved?
  }

  predicate NeedsEager(t: Type) {
    t.Eager? || (t.Union? && exists i :: 0 <= i < |t.members| && NeedsEager(t.members[i]))
  }

  datatype Step = Step(fn: F.Function, each: bool, output: Type, deps: map<Name, Type>, forced: bool, maxInFlight: nat)

  datatype Dag = Dag(names: seq<Name>, steps: map<Name, Step>) {
    ghost predicate Valid() {
      forall n :: n in names <==> n in steps
    }

    function ConsumersOf(p: Name): (consumers: seq<Name>)
      ensures forall c | c in consumers :: c in names && c in steps && p in steps[c].deps
    {
      Filter(p, names)
    }

    function Filter(p: Name, names: seq<Name>): (consumers: seq<Name>)
      ensures forall c :: c in consumers <==> c in names && c in steps && p in steps[c].deps
    {
      if names == [] then []
      else
        var init, last := names[..|names| - 1], names[|names| - 1];
        assert names == init + [last];
        Filter(p, init) + if last in steps && p in steps[last].deps then [last] else []
    }

    predicate Hidden(n: Name) {
      n != "" && n[0] == '_'
    }

    predicate Terminal(n: Name) {
      Hidden(n) || ConsumersOf(n) == []
    }
  }

  // ---------------------------------------------------------------------------
  // Which runner a pipeline needs
  // ---------------------------------------------------------------------------

  predicate UsesSync(s: Step) {
    s.fn != F.NoFunction && (IsSyncStream(s.output) || exists d | d in s.deps :: IsSyncStream(s.deps[d]))
  }

  predicate UsesAsync(s: Step) {
    s.fn != F.NoFunction
    && (F.IsAsyncCallable(s.fn) || IsAsyncStream(s.output) || exists d | d in s.deps :: IsAsyncStream(s.deps[d]))
  }

  predicate HasSync(dag: Dag) {
    exists n | n in dag.steps :: UsesSync(dag.steps[n])
  }

  predicate HasAsync(dag: Dag) {
    exists n | n in dag.steps :: UsesAsync(dag.steps[n])
  }

  datatype Runners = Runners(requiresSync: bool, requiresAsync: bool)

  /** `validate_sync_async_consistency`: rejected exactly when both kinds of features are used. */
  method ValidateSyncAsync(dag: Dag) returns (r: Option<Runners>)
    requires dag.Valid()
    ensures r.None? <==> HasSync(dag) && HasAsync(dag)
    ensures r.Some? ==> r.value == Runners(HasSync(dag), HasAsync(dag))
  {
    var hasSync, hasAsync := false, false;
    for i := 0 to |dag.names|
      invariant hasSync <==> exists j :: 0 <= j < i && UsesSync(dag.steps[dag.names[j]])
      invariant hasAsync <==> exists j :: 0 <= j < i && UsesAsync(dag.steps[dag.names[j]])
    {
      var step := dag.steps[dag.names[i]];
      if step.fn == F.NoFunction { continue; }
      if F.IsAsyncCallable(step.fn) { hasAsync := true; }
      if IsSyncStream(step.output) { hasSync := true; }
      if IsAsyncStream(step.output) { hasAsync := true; }
      var rest := step.deps.Keys;
      while rest != {}
        invariant rest <= step.deps.Keys
        invariant hasSync <==> (exists j :: 0 <= j < i && UsesSync(dag.steps[dag.names[j]]))
                               || IsSyncStream(step.output)
                               || exists d | d in step.deps.Keys - rest :: IsSyncStream(step.deps[d])
        invariant hasAsync <==> (exists j :: 0 <= j < i && UsesAsync(dag.steps[dag.names[j]]))
                                || F.IsAsyncCallable(step.fn) || IsAsyncStream(step.output)
                                || exists d | d in step.deps.Keys - rest :: IsAsyncStream(step.deps[d])
        decreases rest
      {
        var d :| d in rest;
        if IsSyncStream(step.deps[d]) { hasSync := true; }
        if IsAsyncStream(step.deps[d]) { hasAsync := true; }
        rest := rest - {d};
      }
    }
    if hasSync && hasAsync { return None; }
    return Some(Runners(hasSync, hasAsync));
  }

  /** The type is this one, or a union with it somewhere inside. */
  ghost predicate Mentions(t: Type, leaf: Type) {
    t == leaf || (t.Union? && exists i :: 0 <= i < |t.members| && Mentions(t.members[i], leaf))
  }

  /** The step has a function, and the type occurs in its output or among its arguments. */
  ghost predicate Handles(s: Step, leaf: Type) {
    s.fn != F.NoFunction && (Mentions(s.output, leaf) || exists d | d in s.deps :: Mentions(s.deps[d], leaf))
  }

  lemma {:induction false} StreamsAreMentioned(t: Type)
    ensures IsSyncStream(t) <==> Mentions(t, SyncStream)
    ensures IsAsyncStream(t) <==> Mentions(t, AsyncStream)
  {
    if t.Union? {
      forall i | 0 <= i < |t.members|
        ensures IsSyncStream(t.members[i]) <==> Mentions(t.members[i], SyncStream)
        ensures IsAsyncStream(t.members[i]) <==> Mentions(t.members[i], AsyncStream)
      {
        StreamsAreMentioned(t.members[i]);
      }
    }
  }

  /** Which runner a step needs: the sync one if it handles a sync stream, the async one if it handles an
      async stream or its function is async; a step without a function needs neither. */
  lemma UsesExactly(s: Step)
    ensures UsesSync(s) <==> Handles(s, SyncStream)
    ensures UsesAsync(s) <==> (s.fn != F.NoFunction && F.IsAsyncCallable(s.fn)) || Handles(s, AsyncStream)
  {
    StreamsAreMentioned(s.output);
    forall d | d in s.deps
      ensures IsSyncStream(s.deps[d]) <==> Mentions(s.deps[d], SyncStream)
      ensures IsAsyncStream(s.deps[d]) <==> Mentions(s.deps[d], AsyncStream)
    {
      StreamsAreMentioned(s.deps[d]);
    }
  }

  /** The builder's check of step functions: async ones exactly in pipelines for the async runner. */
  predicate HandlersMatch(dag: Dag, requiresAsync: bool) {
    forall n | n in dag.steps && dag.steps[n].fn != F.NoFunction :: F.IsAsyncCallable(dag.steps[n].fn) <==> requiresAsync
  }

  /** `_validate_handler_execution_modes`, as far as step functions go. */
  method ValidateStepFunctions(dag: Dag, requiresAsync: bool) returns (ok: bool)
    requires dag.Valid()
    ensures ok <==> HandlersMatch(dag, requiresAsync)
  {
    for i := 0 to |dag.names|
      invariant forall j :: 0 <= j < i && dag.steps[dag.names[j]].fn != F.NoFunction ==>
                  (F.IsAsyncCallable(dag.steps[dag.names[j]].fn) <==> requiresAsync)
    {
      var fn := dag.steps[dag.names[i]].fn;
      if fn != F.NoFunction && F.IsAsyncCallable(fn) != requiresAsync { return false; }
    }
    return true;
  }

  // ---------------------------------------------------------------------------
  // Materialisation
  // ---------------------------------------------------------------------------

  /** A consumer whose function needs the producer's output as a collection. */
  predicate Forces(consumer: Step, p: Name) {
    consumer.fn != F.NoFunction && p in consumer.deps && (NeedsEager(consumer.deps[p]) || consumer.forced)
  }

  predicate MustMaterialize(dag: Dag, p: Name) {
    p in dag.steps && (dag.steps[p].forced || exists c | c in dag.steps :: Forces(dag.steps[c], p))
  }

  /** One pass over the consumers. */
  method MarkPass(dag: Dag, before: set<Name>) returns (needs: set<Name>, changed: bool)
    requires dag.Valid() && before <= dag.steps.Keys
    ensures changed <==> needs != before
    ensures forall p :: p in needs <==>
              p in before || (p in dag.steps && exists c | c in dag.steps :: Forces(dag.steps[c], p))
  {
    needs := before;
    for i := 0 to |dag.names|
      invariant needs <= dag.steps.Keys
      invariant forall p :: p in needs <==>
                  p in before || (p in dag.steps && exists j :: 0 <= j < i && Forces(dag.steps[dag.names[j]], p))
    {
      var consumer := dag.steps[dag.names[i]];
      if consumer.fn == F.NoFunction { continue; }
      ghost var marked := needs;
      needs := needs + (set p | p in consumer.deps && p in dag.steps && NeedsEager(consumer.deps[p]));
      if consumer.forced {
        needs := needs + (set p | p in consumer.deps && p in dag.steps);
      }
      assert forall p :: p in needs <==> p in marked || (p in dag.steps && Forces(consumer, p));
    }
    changed := needs != before;
  }

  /** `_plan_materialization`: a fixpoint loop that ends with exactly the producers that are forced or
      have a consumer that needs a collection. */
  method PlanMaterialization(dag: Dag) returns (needs: set<Name>)
    requires dag.Valid()
    ensures forall p :: p in needs <==> MustMaterialize(dag, p)
  {
    needs := set p | p in dag.steps && dag.steps[p].forced;
    var changed := true;
    while changed
      invariant needs <= dag.steps.Keys
      invariant forall p | p in needs :: MustMaterialize(dag, p)
      invariant forall p | p in dag.steps && dag.steps[p].forced :: p in needs
      invariant !changed ==> forall p | MustMaterialize(dag, p) :: p in needs
      decreases dag.steps.Keys - needs, changed
    {
      needs, changed := MarkPass(dag, needs);
    }
  }

  // ---------------------------------------------------------------------------
  // The plan of a step
  // ---------------------------------------------------------------------------

  datatype Kind = Value | SyncKind | AsyncKind
  datatype Consumption = ByItem | Materialized | AsStream | BarrierOnly
  datatype Drain = NoDrain | TerminalDrain | BarrierDrain
  datatype Strategy = PublishValue | PublishMaterialized | PublishAsyncFanout | PublishSyncFanout | PublishStream
  datatype Handoff = NoHandoff | AsyncQueue | SyncFanout | BoundedIterator

  datatype Plan = Plan(kind: Kind, drain: Drain, strategy: Strategy, handoff: Handoff)

  function KindOf(requiresAsync: bool, s: Step): Kind {
    if s.each then if requiresAsync then AsyncKind else SyncKind
    else if IsAsyncStream(s.output) then AsyncKind
    else if IsSyncStream(s.output) then SyncKind
    else Value
  }

  function ConsumptionOf(consumer: Step, p: Name): Consumption
    requires p in consumer.deps
  {
    if consumer.each then ByItem
    else if NeedsEager(consumer.deps[p]) then Materialized
    else if IsIterable(consumer.deps[p]) then AsStream
    else BarrierOnly
  }

  predicate AllBarriers(dag: Dag, p: Name) {
    forall c | c in dag.ConsumersOf(p) :: ConsumptionOf(dag.steps[c], p) == BarrierOnly
  }

  function DrainOf(dag: Dag, n: Name, kind: Kind): Drain {
    if kind == Value then NoDrain
    else if dag.Terminal(n) then TerminalDrain
    else if AllBarriers(dag, n) then BarrierDrain
    else NoDrain
  }

  function PlanOf(dag: Dag, requiresAsync: bool, needs: set<Name>, n: Name): Plan
    requires n in dag.steps
  {
    var s := dag.steps[n];
    var kind := KindOf(requiresAsync, s);
    var drain := DrainOf(dag, n, kind);
    if kind == Value || drain != NoDrain then Plan(kind, drain, PublishValue, NoHandoff)
    else if n in needs then Plan(kind, drain, PublishMaterialized, NoHandoff)
    else if kind == AsyncKind then Plan(kind, drain, PublishAsyncFanout, AsyncQueue)
    else if |dag.ConsumersOf(n)| > 1 then Plan(kind, drain, PublishSyncFanout, SyncFanout)
    else Plan(kind, drain, PublishStream, if kind == SyncKind && s.maxInFlight > 1 then BoundedIterator else NoHandoff)
  }

  // ---------------------------------------------------------------------------
  // What a plan has to be
  // ---------------------------------------------------------------------------

  ghost predicate DependsOn(dag: Dag, c: Name, n: Name) {
    c in dag.names && c in dag.steps && n in dag.steps[c].deps
  }

  /** The consumer takes more of n than that it is over. */
  ghost predicate Consumes(dag: Dag, c: Name, n: Name) {
    DependsOn(dag, c, n)
    && (dag.steps[c].each || Mentions(dag.steps[c].deps[n], Eager)
        || dag.steps[c].deps[n] in {Eager, Iterable, SyncStream, AsyncStream, Resolved})
  }

  ghost predicate SeveralAmong(dag: Dag, n: Name, names: seq<Name>) {
    exists i, j :: 0 <= i < j < |names| && DependsOn(dag, names[i], n) && DependsOn(dag, names[j], n)
  }

  ghost predicate IsStream(s: Step) {
    s.each || IsSyncStream(s.output) || IsAsyncStream(s.output)
  }

  /** Somebody needs n as a collection: it is forced itself, or one of its consumers with a function is, or
      takes it as a list, set, tuple or dict. */
  ghost predicate Demanded(dag: Dag, n: Name)
    requires n in dag.steps
  {
    dag.steps[n].forced ||
    exists c | c in dag.steps && n in dag.steps[c].deps && dag.steps[c].fn != F.NoFunction ::
      dag.steps[c].forced || Mentions(dag.steps[c].deps[n], Eager)
  }

  /** A stream that runs while its consumers read it, or is made into a collection for them. */
  ghost predicate Handed(dag: Dag, n: Name)
    requires n in dag.steps
  {
    IsStream(dag.steps[n]) && !(n != "" && n[0] == '_') && exists c :: Consumes(dag, c, n)
  }

  ghost predicate KindIsRight(requiresAsync: bool, s: Step, kind: Kind) {
    && (kind != Value <==> IsStream(s))
    && (kind == AsyncKind <==> if s.each then requiresAsync else IsAsyncStream(s.output))
  }

  ghost predicate DrainIsRight(dag: Dag, n: Name, drain: Drain)
    requires n in dag.steps
  {
    && (drain == NoDrain <==> !IsStream(dag.steps[n]) || Handed(dag, n))
    && (drain == TerminalDrain <==>
          IsStream(dag.steps[n]) && ((n != "" && n[0] == '_') || forall c :: !DependsOn(dag, c, n)))
  }

  /** Only streams that are handed on are published as anything but their value, as a collection exactly if
      somebody forces that, and otherwise lazily, by a fan-out unless a sync stream has one reader. */
  ghost predicate StrategyIsRight(dag: Dag, n: Name, kind: Kind, strategy: Strategy)
    requires n in dag.steps
  {
    && (strategy == PublishValue <==> !Handed(dag, n))
    && (strategy == PublishMaterialized <==> Handed(dag, n) && Demanded(dag, n))
    && (strategy == PublishAsyncFanout <==> Handed(dag, n) && !Demanded(dag, n) && kind == AsyncKind)
    && (strategy == PublishSyncFanout <==>
          Handed(dag, n) && !Demanded(dag, n) && kind == SyncKind && SeveralAmong(dag, n, dag.names))
  }

  ghost predicate Planned(dag: Dag, requiresAsync: bool, n: Name, plan: Plan)
    requires n in dag.steps
  {
    && KindIsRight(requiresAsync, dag.steps[n], plan.kind)
    && DrainIsRight(dag, n, plan.drain)
    && StrategyIsRight(dag, n, plan.kind, plan.strategy)
    && (plan.handoff == AsyncQueue <==> plan.strategy == PublishAsyncFanout)
    && (plan.handoff == SyncFanout <==> plan.strategy == PublishSyncFanout)
    && (plan.handoff == BoundedIterator <==> plan.strategy == PublishStream && dag.steps[n].maxInFlight > 1)
  }

  ghost predicate SomeAmong(dag: Dag, n: Name, names: seq<Name>) {
    exists i :: 0 <= i < |names| && DependsOn(dag, names[i], n)
  }

  lemma OneMoreName(dag: Dag, n: Name, names: seq<Name>, last: Name)
    ensures SomeAmong(dag, n, names + [last]) <==> SomeAmong(dag, n, names) || DependsOn(dag, last, n)
    ensures SeveralAmong(dag, n, names + [last]) <==>
            SeveralAmong(dag, n, names) || (SomeAmong(dag, n, names) && DependsOn(dag, last, n))
  {
    var all := names + [last];
    assert forall i :: 0 <= i < |names| ==> all[i] == names[i];
    assert all[|names|] == last;
    if SomeAmong(dag, n, names) {
      var i :| 0 <= i < |names| && DependsOn(dag, names[i], n);
      assert DependsOn(dag, all[i], n);
    }
    if SeveralAmong(dag, n, names) {
      var i, j :| 0 <= i < j < |names| && DependsOn(dag, names[i], n) && DependsOn(dag, names[j], n);
      assert DependsOn(dag, all[i], n) && DependsOn(dag, all[j], n);
    }
  }

  lemma FilterSnoc(dag: Dag, n: Name, front: seq<Name>, last: Name)
    requires last in dag.names
    ensures dag.Filter(n, front + [last]) == dag.Filter(n, front) + if DependsOn(dag, last, n) then [last] else []
  {
    assert (front + [last])[..|front|] == front;
  }

  lemma {:induction false} ConsumersAreCounted(dag: Dag, n: Name, names: seq<Name>)
    requires forall c | c in names :: c in dag.names
    ensures |dag.Filter(n, names)| > 0 <==> SomeAmong(dag, n, names)
    ensures |dag.Filter(n, names)| > 1 <==> SeveralAmong(dag, n, names)
  {
    if names != [] {
      var front, last := names[..|names| - 1], names[|names| - 1];
      assert names == front + [last];
      ConsumersAreCounted(dag, n, front);
      FilterSnoc(dag, n, front, last);
      OneMoreName(dag, n, front, last);
    }
  }

  lemma {:induction false} EagerIsMentioned(t: Type)
    ensures NeedsEager(t) <==> Mentions(t, Eager)
  {
    if t.Union? {
      forall i | 0 <= i < |t.members| ensures NeedsEager(t.members[i]) <==> Mentions(t.members[i], Eager) {
        EagerIsMentioned(t.members[i]);
      }
    }
  }

  lemma BarriersExactly(dag: Dag, n: Name)
    ensures AllBarriers(dag, n) <==> forall c :: !Consumes(dag, c, n)
  {
    forall c ensures c in dag.ConsumersOf(n) <==> DependsOn(dag, c, n) {
    }
    if AllBarriers(dag, n) {
      forall c ensures !Consumes(dag, c, n) {
        if DependsOn(dag, c, n) {
          EagerIsMentioned(dag.steps[c].deps[n]);
          assert ConsumptionOf(dag.steps[c], n) == BarrierOnly;
        }
      }
    } else {
      var c :| c in dag.ConsumersOf(n) && ConsumptionOf(dag.steps[c], n) != BarrierOnly;
      EagerIsMentioned(dag.steps[c].deps[n]);
      assert Consumes(dag, c, n);
    }
  }

  lemma NoConsumersExactly(dag: Dag, n: Name)
    ensures dag.ConsumersOf(n) == [] <==> forall c :: !DependsOn(dag, c, n)
  {
    if dag.ConsumersOf(n) == [] {
      forall c ensures !DependsOn(dag, c, n) {
        assert c !in dag.ConsumersOf(n);
      }
    } else {
      assert DependsOn(dag, dag.ConsumersOf(n)[0], n);
    }
  }

  lemma DemandedExactly(dag: Dag, n: Name)
    requires n in dag.steps
    ensures MustMaterialize(dag, n) <==> Demanded(dag, n)
  {
    if c :| c in dag.steps && Forces(dag.steps[c], n) {
      assert n in dag.steps[c].deps;
      EagerIsMentioned(dag.steps[c].deps[n]);
    }
    if c :| c in dag.steps && n in dag.steps[c].deps && dag.steps[c].fn != F.NoFunction
            && (dag.steps[c].forced || Mentions(dag.steps[c].deps[n], Eager)) {
      EagerIsMentioned(dag.steps[c].deps[n]);
      assert Forces(dag.steps[c], n);
    }
  }

  /** The compiled plan of every step, in every Dag, is the one it has to be. */
  lemma PlanIsRight(dag: Dag, requiresAsync: bool, needs: set<Name>, n: Name)
    requires n in dag.steps && forall p :: p in needs <==> MustMaterialize(dag, p)
    ensures Planned(dag, requiresAsync, n, PlanOf(dag, requiresAsync, needs, n))
  {
    ConsumersAreCounted(dag, n, dag.names);
    BarriersExactly(dag, n);
    NoConsumersExactly(dag, n);
    DemandedExactly(dag, n);
  }

  // ---------------------------------------------------------------------------
  // What the engines accept
  // ---------------------------------------------------------------------------

  /** The branch of `publish` a plan ends in; the last two are its errors. */
  datatype Published = AsValue | AsCollection | AsFanout | AsOneStream | WrongKind | Unsupported

  function Publish(engine: F.Engine, plan: Plan): Published {
    if plan.strategy == PublishValue then AsValue
    else if plan.kind != (if engine == F.SyncEngine then SyncKind else AsyncKind) then WrongKind
    else if plan.strategy == PublishMaterialized then AsCollection
    else if plan.strategy == (if engine == F.SyncEngine then PublishSyncFanout else PublishAsyncFanout) then AsFanout
    else if plan.strategy == PublishStream then AsOneStream
    else Unsupported
  }

  predicate PublishWorks(engine: F.Engine, dag: Dag, plan: Plan, n: Name) {
    dag.Hidden(n) || Publish(engine, plan) !in {WrongKind, Unsupported}
  }

  /** The call of the step's function works and its output can be published. */
  predicate StepRuns(engine: F.Engine, dag: Dag, plan: Plan, n: Name)
    requires n in dag.steps
  {
    dag.steps[n].fn == F.NoFunction || (F.CallWorks(engine, dag.steps[n].fn) && PublishWorks(engine, dag, plan, n))
  }

  /** The entry points refuse only what needs the other runner. */
  predicate Admits(engine: F.Engine, r: Runners) {
    if engine == F.SyncEngine then !r.requiresAsync else !r.requiresSync
  }

  /** The runner chosen for a compiled pipeline. */
  function ChosenEngine(r: Runners): F.Engine {
    if r.requiresAsync then F.AsyncEngine else F.SyncEngine
  }

  /** For every pipeline the consistency check accepts, the chosen engine's errors for unsupported
      strategies and wrong kinds are unreachable for every step with a function, and the branch taken
      is right: a fan-out exactly for lazy streams of several consumers, or in the async engine for
      every lazy stream. */
  lemma PlansFitTheirEngine(dag: Dag, needs: set<Name>, n: Name)
    requires n in dag.steps && dag.steps[n].fn != F.NoFunction && !(HasSync(dag) && HasAsync(dag))
    ensures var r := Runners(HasSync(dag), HasAsync(dag));
            var plan := PlanOf(dag, r.requiresAsync, needs, n);
            var published := Publish(ChosenEngine(r), plan);
            && published != WrongKind && published != Unsupported
            && (published == AsFanout ==> ChosenEngine(r) == F.AsyncEngine || |dag.ConsumersOf(n)| > 1)
            && (published == AsOneStream ==> ChosenEngine(r) == F.SyncEngine && |dag.ConsumersOf(n)| == 1)
  {
    assert UsesSync(dag.steps[n]) ==> HasSync(dag);
    assert UsesAsync(dag.steps[n]) ==> HasAsync(dag);
  }

  /** What becomes of the output of every step with a function in the chosen engine: what is not a stream
      in the hands of its consumers is stored as it is; a stream is made into a collection exactly if
      somebody needs one, and otherwise fanned out, except for a sync stream with one reader. */
  lemma PublishedIsRight(dag: Dag, needs: set<Name>, n: Name)
    requires n in dag.steps && dag.steps[n].fn != F.NoFunction && !(HasSync(dag) && HasAsync(dag))
    requires forall p :: p in needs <==> MustMaterialize(dag, p)
    ensures var r := Runners(HasSync(dag), HasAsync(dag));
            var published := Publish(ChosenEngine(r), PlanOf(dag, r.requiresAsync, needs, n));
      && (published == AsValue <==> !Handed(dag, n))
      && (published == AsCollection <==> Handed(dag, n) && Demanded(dag, n))
      && (published == AsFanout <==>
            Handed(dag, n) && !Demanded(dag, n) && (HasAsync(dag) || SeveralAmong(dag, n, dag.names)))
      && (published == AsOneStream <==>
            Handed(dag, n) && !Demanded(dag, n) && !HasAsync(dag) && !SeveralAmong(dag, n, dag.names))
  {
    var r := Runners(HasSync(dag), HasAsync(dag));
    PlanIsRight(dag, r.requiresAsync, needs, n);
    PlansFitTheirEngine(dag, needs, n);
    KindInItsEngine(dag, n);
  }

  /** In the engine that its pipeline is compiled for, a stream has that engine's kind. */
  lemma KindInItsEngine(dag: Dag, n: Name)
    requires n in dag.steps && dag.steps[n].fn != F.NoFunction && !(HasSync(dag) && HasAsync(dag))
    ensures KindOf(HasAsync(dag), dag.steps[n]) in {Value, if HasAsync(dag) then AsyncKind else SyncKind}
  {
    assert UsesSync(dag.steps[n]) ==> HasSync(dag);
    assert UsesAsync(dag.steps[n]) ==> HasAsync(dag);
  }

  /** Which steps run in a pipeline that the builder accepts, in an engine whose entry point admits it: in
      the chosen engine exactly those whose function's looks do not deceive, in the other one exactly
      those that hide an awaitable and are published by a branch that engine has. */
  lemma StepsRunExactly(dag: Dag, needs: set<Name>, engine: F.Engine, n: Name)
    requires !(HasSync(dag) && HasAsync(dag)) && HandlersMatch(dag, HasAsync(dag))
    requires Admits(engine, Runners(HasSync(dag), HasAsync(dag)))
    requires n in dag.steps && dag.steps[n].fn != F.NoFunction
    ensures var r := Runners(HasSync(dag), HasAsync(dag));
            var plan, fn := PlanOf(dag, r.requiresAsync, needs, n), dag.steps[n].fn;
      StepRuns(engine, dag, plan, n) <==>
        if engine == ChosenEngine(r) then !F.Deceives(fn)
        else F.HidesAwaitable(fn) && PublishWorks(engine, dag, plan, n)
  {
    PlansFitTheirEngine(dag, needs, n);
    F.LooksDecideExactly(dag.steps[n].fn);
  }

  /** For a pipeline without included ones: all steps run in an engine that admits it if and only if it is
      the chosen engine and no step function is an object, or a partial of one, whose call is an async
      generator; or there is no function to call. */
  lemma EngineFitsExactly(dag: Dag, needs: set<Name>, engine: F.Engine)
    requires !(HasSync(dag) && HasAsync(dag)) && HandlersMatch(dag, HasAsync(dag))
    requires Admits(engine, Runners(HasSync(dag), HasAsync(dag)))
    requires forall n | n in dag.steps :: dag.steps[n].fn == F.NoFunction || !dag.steps[n].fn.target.Wrapper?
    ensures var r := Runners(HasSync(dag), HasAsync(dag));
      (forall n | n in dag.steps :: StepRuns(engine, dag, PlanOf(dag, r.requiresAsync, needs, n), n)) <==>
        || (engine == ChosenEngine(r)
            && forall n | n in dag.steps && dag.steps[n].fn != F.NoFunction ::
                 dag.steps[n].fn.target != F.Object(F.AsyncGeneratorDef))
        || (forall n | n in dag.steps :: dag.steps[n].fn == F.NoFunction)
  {
    var r := Runners(HasSync(dag), HasAsync(dag));
    forall n | n in dag.steps && dag.steps[n].fn != F.NoFunction
      ensures StepRuns(engine, dag, PlanOf(dag, r.requiresAsync, needs, n), n) <==>
                engine == ChosenEngine(r) && dag.steps[n].fn.target != F.Object(F.AsyncGeneratorDef)
    {
      StepsRunExactly(dag, needs, engine, n);
    }
  }

  /** A pipeline of one step. */
  function OneStep(fn: F.Function, output: Type): Dag {
    Dag(["s"], map["s" := Step(fn, false, output, map[], false, 1)])
  }

  lemma OneStepUses(fn: F.Function, output: Type)
    requires fn != F.NoFunction
    ensures "s" in OneStep(fn, output).steps
    ensures HasSync(OneStep(fn, output)) <==> IsSyncStream(output)
    ensures HasAsync(OneStep(fn, output)) <==> F.IsAsyncCallable(fn) || IsAsyncStream(output)
    ensures forall async :: HandlersMatch(OneStep(fn, output), async) <==> (F.IsAsyncCallable(fn) <==> async)
  {
    var dag := OneStep(fn, output);
    assert UsesSync(dag.steps["s"]) <==> IsSyncStream(output);
    assert UsesAsync(dag.steps["s"]) <==> F.IsAsyncCallable(fn) || IsAsyncStream(output);
  }

  /** One plain function: the builder accepts it, the async entry point admits it and publishing a value
      would work there, but the call does not. */
  lemma PlainStepInAsyncEngine()
    ensures var dag := OneStep(F.Function(false, F.Plainly(F.PlainDef)), Plain);
      && "s" in dag.steps && !HasSync(dag) && !HasAsync(dag) && HandlersMatch(dag, false)
      && Admits(F.AsyncEngine, Runners(false, false))
      && PublishWorks(F.AsyncEngine, dag, PlanOf(dag, false, {}, "s"), "s")
      && !StepRuns(F.AsyncEngine, dag, PlanOf(dag, false, {}, "s"), "s")
  {
    OneStepUses(F.Function(false, F.Plainly(F.PlainDef)), Plain);
  }

  /** An object whose call is an async generator, or a partial of it: the builder accepts it for the async
      engine, and the call fails there. */
  lemma AsyncGeneratorObject(bound: bool)
    ensures var dag := OneStep(F.Function(bound, F.Object(F.AsyncGeneratorDef)), Plain);
      && "s" in dag.steps && !HasSync(dag) && HasAsync(dag) && HandlersMatch(dag, true)
      && ChosenEngine(Runners(false, true)) == F.AsyncEngine && Admits(F.AsyncEngine, Runners(false, true))
      && !StepRuns(F.AsyncEngine, dag, PlanOf(dag, true, {}, "s"), "s")
  {
    OneStepUses(F.Function(bound, F.Object(F.AsyncGeneratorDef)), Plain);
  }

  /** A step with an async generator function is accepted in its own pipeline; wrapped by an include, it is
      refused. */
  lemma IncludedAsyncGenerator()
    ensures var fn := F.Function(false, F.Plainly(F.AsyncGeneratorDef));
      && HasAsync(OneStep(fn, AsyncStream)) && HandlersMatch(OneStep(fn, AsyncStream), true)
      && HasAsync(OneStep(F.Wrapped(fn), AsyncStream)) && !HandlersMatch(OneStep(F.Wrapped(fn), AsyncStream), true)
  {
    var fn := F.Function(false, F.Plainly(F.AsyncGeneratorDef));
    OneStepUses(fn, AsyncStream);
    OneStepUses(F.Wrapped(fn), AsyncStream);
  }

  /** An object whose call is a coroutine runs in its own pipeline.  Wrapped by an include it looks plain:
      the pipeline is accepted for the sync engine, where nobody awaits the coroutine. */
  lemma IncludedCoroutineObject()
    ensures var fn := F.Function(false, F.Object(F.CoroutineDef));
            var own, included := OneStep(fn, Plain), OneStep(F.Wrapped(fn), Plain);
      && HasAsync(own) && HandlersMatch(own, true) && "s" in own.steps
      && StepRuns(F.AsyncEngine, own, PlanOf(own, true, {}, "s"), "s")
      && !HasAsync(included) && HandlersMatch(included, false) && "s" in included.steps
      && ChosenEngine(Runners(false, false)) == F.SyncEngine
      && !StepRuns(F.SyncEngine, included, PlanOf(included, false, {}, "s"), "s")
  {
    var fn := F.Function(false, F.Object(F.CoroutineDef));
    OneStepUses(fn, Plain);
    OneStepUses(F.Wrapped(fn), Plain);
  }

  /** In the dispatch alone, for a pipeline that needs neither runner: the async `publish` meets no stream
      of the wrong kind if and only if every EACH step is drained. */
  lemma PlainPipelineInAsyncEngine(dag: Dag, needs: set<Name>)
    requires !HasSync(dag) && !HasAsync(dag)
    ensures (forall n | n in dag.steps && dag.steps[n].fn != F.NoFunction ::
               Publish(F.AsyncEngine, PlanOf(dag, false, needs, n)) != WrongKind)
       <==> (forall n | n in dag.steps && dag.steps[n].fn != F.NoFunction ::
               !dag.steps[n].each || DrainOf(dag, n, SyncKind) != NoDrain)
  {
    forall n | n in dag.steps && dag.steps[n].fn != F.NoFunction
      ensures Publish(F.AsyncEngine, PlanOf(dag, false, needs, n)) != WrongKind
         <==> (!dag.steps[n].each || DrainOf(dag, n, SyncKind) != NoDrain)
    {
      assert UsesSync(dag.steps[n]) ==> HasSync(dag);
      assert UsesAsync(dag.steps[n]) ==> HasAsync(dag);
    }
  }

  const PLAIN := F.Function(false, F.Plainly(F.PlainDef))

  /** A list, an EACH step over it, and a step that reads the results as an iterable. */
  function LazyEach(): Dag {
    Dag(["p", "e", "c"],
        map["p" := Step(PLAIN, false, Eager, map[], false, 1),
            "e" := Step(PLAIN, true, Resolved, map["p" := Plain], false, 1),
            "c" := Step(PLAIN, false, Plain, map["e" := Iterable], false, 1)])
  }

  /** Such a pipeline needs neither runner, and its EACH step is a stream of the wrong kind there. */
  lemma LazyEachInAsyncEngine()
    ensures var dag := LazyEach();
      && dag.Valid() && !HasSync(dag) && !HasAsync(dag) && HandlersMatch(dag, false)
      && "e" in dag.steps && Publish(F.AsyncEngine, PlanOf(dag, false, {}, "e")) == WrongKind
  {
    LazyEachIsPlain();
    var dag := LazyEach();
    assert dag.names[2] == "c" && "c" in dag.ConsumersOf("e");
    assert !dag.Terminal("e") && !AllBarriers(dag, "e");
  }

  lemma LazyEachIsPlain()
    ensures LazyEach().Valid() && !HasSync(LazyEach()) && !HasAsync(LazyEach()) && HandlersMatch(LazyEach(), false)
  {
    var dag := LazyEach();
    assert dag.names[0] == "p" && dag.names[1] == "e" && dag.names[2] == "c";
    forall n | n in dag.steps
      ensures !UsesSync(dag.steps[n]) && !UsesAsync(dag.steps[n]) && !F.IsAsyncCallable(dag.steps[n].fn)
    {
      assert n == "p" || n == "e" || n == "c";
    }
  }

  /** A step that is published lazily has a consumer that takes more than its completion, and none
      whose function needs a collection. */
  lemma LazyStreamsHaveReaders(dag: Dag, requiresAsync: bool, needs: set<Name>, n: Name)
    requires n in dag.steps && forall p :: p in needs <==> MustMaterialize(dag, p)
    ensures var plan := PlanOf(dag, requiresAsync, needs, n);
            && (plan.kind != Value && plan.drain == NoDrain ==>
                  exists c | c in dag.ConsumersOf(n) :: ConsumptionOf(dag.steps[c], n) != BarrierOnly)
            && (plan.strategy !in {PublishValue, PublishMaterialized} ==>
                  !dag.steps[n].forced
                  && forall c | c in dag.ConsumersOf(n) && dag.steps[c].fn != F.NoFunction ::
                       !NeedsEager(dag.steps[c].deps[n]) && !dag.steps[c].forced)
  {
    forall c | c in dag.ConsumersOf(n) && dag.steps[c].fn != F.NoFunction && n !in needs
      ensures !NeedsEager(dag.steps[c].deps[n]) && !dag.steps[c].forced
    {
      assert !Forces(dag.steps[c], n);
    }
  }

  /** `_compile_execution_plan`. */
  method CompileExecutionPlan(dag: Dag, requiresAsync: bool, needs: set<Name>) returns (plans: map<Name, Plan>)
    requires dag.Valid()
    ensures plans.Keys == dag.steps.Keys
    ensures forall n | n in plans :: plans[n] == PlanOf(dag, requiresAsync, needs, n)
  {
    plans := map[];
    for i := 0 to |dag.names|
      invariant forall n :: n in plans <==> n in dag.names[..i]
      invariant forall n | n in plans :: n in dag.steps && plans[n] == PlanOf(dag, requiresAsync, needs, n)
    {
      var n := dag.names[i];
      var step, consumers := dag.steps[n], dag.ConsumersOf(n);
      var kind := KindOf(requiresAsync, step);
      var drain :=
        if kind == Value then NoDrain
        else if dag.Terminal(n) then TerminalDrain
        else if consumers != [] && AllBarriers(dag, n) then BarrierDrain
        else NoDrain;
      assert drain == DrainOf(dag, n, kind);
      var strategy, handoff;
      if (kind != Value && drain != NoDrain) || kind == Value {
        strategy, handoff := PublishValue, NoHandoff;
      } else if n in needs {
        strategy, handoff := PublishMaterialized, NoHandoff;
      } else if kind == AsyncKind {
        strategy, handoff := PublishAsyncFanout, AsyncQueue;
      } else if |consumers| > 1 {
        strategy, handoff := PublishSyncFanout, SyncFanout;
      } else {
        strategy := PublishStream;
        handoff := if kind == SyncKind && step.maxInFlight > 1 then BoundedIterator else NoHandoff;
      }
      var plan := Plan(kind, drain, strategy, handoff);
      assert plan == PlanOf(dag, requiresAsync, needs, n);
      plans := plans[n := plan];
      assert dag.names[..i + 1] == dag.names[..i] + [n];
    }
    assert dag.names[..|dag.names|] == dag.names;
  }

  /** The builder's compilation steps in their order.  Of what they accept, exactly the steps whose
      function's looks do not deceive run in the chosen engine, every output can be published there, and a
      lazily published stream has a reader and no consumer that needs a collection. */
  method Compile(dag: Dag) returns (r: Option<(Runners, map<Name, Plan>)>)
    requires dag.Valid()
    ensures r.None? <==> (HasSync(dag) && HasAsync(dag)) || !HandlersMatch(dag, HasAsync(dag))
    ensures r.Some? ==> r.value.1.Keys == dag.steps.Keys
    ensures r.Some? ==> r.value.0 == Runners(HasSync(dag), HasAsync(dag))
    ensures r.Some? ==> forall n | n in dag.steps :: Planned(dag, HasAsync(dag), n, r.value.1[n])
    ensures r.Some? ==> forall n | n in dag.steps && dag.steps[n].fn != F.NoFunction ::
              && PublishWorks(ChosenEngine(r.value.0), dag, r.value.1[n], n)
              && (StepRuns(ChosenEngine(r.value.0), dag, r.value.1[n], n) <==> !F.Deceives(dag.steps[n].fn))
    ensures r.Some? ==> forall n | n in dag.steps && r.value.1[n].strategy !in {PublishValue, PublishMaterialized} ::
              && (exists c | c in dag.ConsumersOf(n) :: ConsumptionOf(dag.steps[c], n) != BarrierOnly)
              && forall c | c in dag.ConsumersOf(n) && dag.steps[c].fn != F.NoFunction :: !NeedsEager(dag.steps[c].deps[n])
  {
    var needs := PlanMaterialization(dag);
    var runners := ValidateSyncAsync(dag);
    if runners.None? { return None; }
    var plans := CompileExecutionPlan(dag, runners.value.requiresAsync, needs);
    var ok := ValidateStepFunctions(dag, runners.value.requiresAsync);
    if !ok { return None; }
    forall n | n in dag.steps
      ensures plans[n] == PlanOf(dag, runners.value.requiresAsync, needs, n)
      ensures Planned(dag, runners.value.requiresAsync, n, plans[n])
    {
      assert n in plans;
      PlanIsRight(dag, runners.value.requiresAsync, needs, n);
    }
    forall n | n in dag.steps && dag.steps[n].fn != F.NoFunction
      ensures PublishWorks(ChosenEngine(runners.value), dag, plans[n], n)
      ensures StepRuns(ChosenEngine(runners.value), dag, plans[n], n) <==> !F.Deceives(dag.steps[n].fn)
    {
      PlansFitTheirEngine(dag, needs, n);
      StepsRunExactly(dag, needs, ChosenEngine(runners.value), n);
    }
    forall n | n in dag.steps && plans[n].strategy !in {PublishValue, PublishMaterialized}
      ensures exists c | c in dag.ConsumersOf(n) :: ConsumptionOf(dag.steps[c], n) != BarrierOnly
      ensures forall c | c in dag.ConsumersOf(n) && dag.steps[c].fn != F.NoFunction :: !NeedsEager(dag.steps[c].deps[n])
    {
      LazyStreamsHaveReaders(dag, runners.value.requiresAsync, needs, n);
    }
    r := Some((runners.value, plans));
  }
}
