/** Flattening of included sub-pipelines (`expand_macros`), with a nested evaluator to compare to.

    A step is a function of its named arguments that may fail; a step whose argument is missing
    does not run.  A value is a plain value or a params object with fields. */
module Expansion {
  import opened Wrappers

  type Name = string

  datatype Value = Plain(id: int) | Params(fields: map<Name, Value>)

  type Fn = map<Name, Value> -> Option<Value>
  type Env = map<Name, Value>

  datatype Declared =
    | Step(name: Name, params: seq<Name>, fn: Fn)
    | Include(name: Name, params: seq<Name>, fn: Fn, pipeline: Pipeline)

  datatype Pipeline = Pipeline(fields: seq<Name>, resources: seq<Name>, exports: Name, steps: seq<Declared>)

  /** A step of the flattened pipeline; `params` is its signature. */
  datatype Flat = Flat(name: Name, params: seq<Name>, fn: Fn)

  // ---------------------------------------------------------------------------
  // Expansion
  // ---------------------------------------------------------------------------

  function Scoped(prefix: Name, name: Name): Name {
    prefix + "__" + name
  }

  const ADAPTER := "adapter"

  function ExpandedName(prefix: Name, exports: Name, name: Name): Name {
    if name == exports then prefix else Scoped(prefix, name)
  }

  /** Where the wrapper of an inner step takes the inner argument `p` from. */
  function Source(prefix: Name, sub: Pipeline, p: Name): Name {
    if p in sub.fields then Scoped(prefix, ADAPTER)
    else if p in sub.resources then p
    else Scoped(prefix, p)
  }

  function Attribute(v: Value, field: Name): Option<Value> {
    if v.Params? && field in v.fields then Some(v.fields[field]) else None
  }

  function Argument(prefix: Name, sub: Pipeline, kwargs: Env, p: Name): Option<Value> {
    var source := Source(prefix, sub, p);
    if source !in kwargs then None
    else if p in sub.fields then Attribute(kwargs[source], p)
    else Some(kwargs[source])
  }

  predicate Remappable(prefix: Name, sub: Pipeline, params: seq<Name>, kwargs: Env) {
    forall p | p in params :: Argument(prefix, sub, kwargs, p).Some?
  }

  function RemapKwargs(prefix: Name, sub: Pipeline, params: seq<Name>, kwargs: Env): Env
    requires Remappable(prefix, sub, params, kwargs)
  {
    map p | p in params :: Argument(prefix, sub, kwargs, p).value
  }

  /** The sources of the inner arguments, each listed once. */
  function WrapperParams(prefix: Name, sub: Pipeline, params: seq<Name>): seq<Name> {
    if params == [] then []
    else
      var before := WrapperParams(prefix, sub, params[..|params| - 1]);
      var source := Source(prefix, sub, params[|params| - 1]);
      if source in before then before else before + [source]
  }

  /** What the wrapper computes; which kind of function it is, is the matter of `StepFunctions`. */
  function WrapFn(prefix: Name, sub: Pipeline, inner: Flat): Fn {
    (kwargs: Env) =>
      if Remappable(prefix, sub, inner.params, kwargs)
      then inner.fn(RemapKwargs(prefix, sub, inner.params, kwargs))
      else None
  }

  function Wrap(prefix: Name, sub: Pipeline, inner: Flat): Flat {
    Flat(ExpandedName(prefix, sub.exports, inner.name),
         WrapperParams(prefix, sub, inner.params),
         WrapFn(prefix, sub, inner))
  }

  function WrapAll(prefix: Name, sub: Pipeline, inner: seq<Flat>): seq<Flat> {
    seq(|inner|, i requires 0 <= i < |inner| => Wrap(prefix, sub, inner[i]))
  }

  function Expand(steps: seq<Declared>): seq<Flat>
    decreases steps
  {
    if steps == [] then [] else ExpandOne(steps[0]) + Expand(steps[1..])
  }

  function ExpandOne(step: Declared): seq<Flat>
    decreases step
  {
    match step
    case Step(name, params, fn) => [Flat(name, params, fn)]
    case Include(name, params, fn, sub) =>
      [Flat(Scoped(name, ADAPTER), params, fn)] + WrapAll(name, sub, Expand(sub.steps))
  }

  // ---------------------------------------------------------------------------
  // Evaluation
  // ---------------------------------------------------------------------------

  type Log = seq<(Name, Option<Value>)>

  function Call(params: seq<Name>, fn: Fn, env: Env): Option<Value> {
    if forall p | p in params :: p in env then fn(map p | p in params :: env[p]) else None
  }

  function Bind(env: Env, name: Name, value: Option<Value>): Env {
    if value.Some? then env[name := value.value] else env
  }

  function BindAll(env: Env, log: Log): Env
    decreases |log|
  {
    if log == [] then env else BindAll(Bind(env, log[0].0, log[0].1), log[1..])
  }

  function EvalFlat(steps: seq<Flat>, env: Env): (log: Log)
    ensures |log| == |steps|
    decreases |steps|
  {
    if steps == [] then []
    else
      var value := Call(steps[0].params, steps[0].fn, env);
      [(steps[0].name, value)] + EvalFlat(steps[1..], Bind(env, steps[0].name, value))
  }

  /** What a nested run computes; an include keeps the trace of its sub-pipeline to itself. */
  datatype Trace =
    | One(name: Name, value: Option<Value>)
    | Sub(name: Name, adapter: Option<Value>, exports: Name, inner: seq<Trace>)

  /** The sub-pipeline sees the fields of the object the include step returned, and its resources. */
  function SubEnv(sub: Pipeline, adapter: Option<Value>, resources: Env): Env {
    (map r | r in sub.resources && r in resources :: resources[r])
    + (map f | f in sub.fields && adapter.Some? && Attribute(adapter.value, f).Some? :: Attribute(adapter.value, f).value)
  }

  function Exported(log: Log, exports: Name): Option<Value> {
    var bound := BindAll(map[], log);
    if exports in bound then Some(bound[exports]) else None
  }

  function EvalNested(resources: Env, steps: seq<Declared>, env: Env): seq<Trace>
    decreases steps
  {
    if steps == [] then []
    else
      var trace := EvalOne(resources, steps[0], env);
      [trace] + EvalNested(resources, steps[1..], Bind(env, steps[0].name, Result(trace)))
  }

  function EvalOne(resources: Env, step: Declared, env: Env): Trace
    decreases step
  {
    var value := Call(step.params, step.fn, env);
    match step
    case Step(name, _, _) => One(name, value)
    case Include(name, _, _, sub) =>
      Sub(name, value, sub.exports, EvalNested(resources, sub.steps, SubEnv(sub, value, resources)))
  }

  function Result(trace: Trace): Option<Value> {
    match trace
    case One(_, value) => value
    case Sub(_, _, exports, inner) => Exported(Named(inner), exports)
  }

  /** The nested values under their names in the flattened pipeline. */
  function Named(traces: seq<Trace>): Log
    decreases traces
  {
    if traces == [] then [] else NamedOne(traces[0]) + Named(traces[1..])
  }

  function NamedOne(trace: Trace): Log
    decreases trace
  {
    match trace
    case One(name, value) => [(name, value)]
    case Sub(name, adapter, exports, inner) =>
      [(Scoped(name, ADAPTER), adapter)] + Renamed(name, exports, Named(inner))
  }

  function Renamed(prefix: Name, exports: Name, log: Log): Log {
    seq(|log|, i requires 0 <= i < |log| => (ExpandedName(prefix, exports, log[i].0), log[i].1))
  }

  // ---------------------------------------------------------------------------
  // When names keep apart
  // ---------------------------------------------------------------------------

  ghost function NamesOf(steps: seq<Flat>): set<Name> {
    set f | f in steps :: f.name
  }

  ghost predicate Reads(steps: seq<Flat>, p: Name) {
    exists f | f in steps :: p in f.params
  }

  /** Names that expansion introduces besides the declared ones. */
  ghost function Hidden(steps: seq<Declared>): set<Name> {
    if steps == [] then {}
    else NamesOf(ExpandOne(steps[0])) - {steps[0].name} + Hidden(steps[1..])
  }

  /** The steps of a sub-pipeline do not share names with its fields and resources, before or
      after renaming. */
  ghost predicate StepNamesApart(prefix: Name, sub: Pipeline, inner: seq<Flat>) {
    forall f | f in inner ::
      && f.name !in sub.fields && f.name !in sub.resources && f.name != ADAPTER
      && ExpandedName(prefix, sub.exports, f.name) !in sub.resources
  }

  /** `scope` holds the names bound before the include, `declared` the resources of its pipeline. */
  ghost predicate IncludeApart(prefix: Name, sub: Pipeline, inner: seq<Flat>, scope: set<Name>, declared: set<Name>) {
    && StepNamesApart(prefix, sub, inner)
    && sub.exports in NamesOf(inner)
    && (forall r | r in sub.resources :: r !in sub.fields && (r in declared || r !in scope))
    && Scoped(prefix, ADAPTER) !in scope && Scoped(prefix, ADAPTER) !in sub.resources
    && forall f, p | f in inner && p in f.params ::
         p in sub.fields || p in sub.resources || (p != ADAPTER && Scoped(prefix, p) !in scope)
  }

  ghost predicate NamesApart(steps: seq<Declared>, hidden: set<Name>, scope: set<Name>, declared: set<Name>)
    decreases steps
  {
    steps == [] ||
    (&& steps[0].name !in hidden
     && (forall p | p in steps[0].params :: p !in hidden)
     && (forall f | f in ExpandOne(steps[0]) :: f.name !in declared && (f.name == steps[0].name || f.name in hidden))
     && (steps[0].Include? ==>
           var sub := steps[0].pipeline;
           && IncludeApart(steps[0].name, sub, Expand(sub.steps), scope, declared)
           && NamesApart(sub.steps, Hidden(sub.steps), ScopeOf(sub), ResourcesOf(sub)))
     && NamesApart(steps[1..], hidden, scope + NamesOf(ExpandOne(steps[0])), declared))
  }

  function ResourcesOf(sub: Pipeline): set<Name> {
    set r | r in sub.resources
  }

  function ScopeOf(sub: Pipeline): set<Name> {
    (set f | f in sub.fields) + ResourcesOf(sub)
  }

  /** No step inside an included pipeline takes that pipeline's exported step as an argument. */
  ghost predicate NoExportReads(steps: seq<Declared>)
    decreases steps
  {
    steps == [] ||
    (&& (steps[0].Include? ==>
           var sub := steps[0].pipeline;
           NoExportReads(sub.steps) && !Reads(Expand(sub.steps), sub.exports))
     && NoExportReads(steps[1..]))
  }

  // ---------------------------------------------------------------------------
  // One wrapped step
  // ---------------------------------------------------------------------------

  function Lookup(env: Env, p: Name): Option<Value> {
    if p in env then Some(env[p]) else None
  }

  lemma ScopedInjective(prefix: Name, x: Name, y: Name)
    ensures Scoped(prefix, x) == Scoped(prefix, y) <==> x == y
    ensures Scoped(prefix, x) != prefix
  {
    if Scoped(prefix, x) == Scoped(prefix, y) {
      assert x == Scoped(prefix, x)[|prefix| + 2..];
      assert y == Scoped(prefix, y)[|prefix| + 2..];
    }
    assert |Scoped(prefix, x)| > |prefix|;
  }

  /** Every resource that a step of an included pipeline reads is declared by the including pipeline too;
      `declared` are the resources of the pipeline of these steps. */
  ghost predicate ResourcesPassed(steps: seq<Declared>, declared: set<Name>)
    decreases steps
  {
    steps == [] ||
    (&& (steps[0].Include? ==>
           var sub := steps[0].pipeline;
           PassedTo(sub, Expand(sub.steps), declared) && ResourcesPassed(sub.steps, ResourcesOf(sub)))
     && ResourcesPassed(steps[1..], declared))
  }

  ghost predicate PassedTo(sub: Pipeline, inner: seq<Flat>, declared: set<Name>) {
    forall f, r | f in inner && r in f.params && r in sub.resources :: r in declared
  }

  lemma {:induction false} WrapperParamsAreSources(prefix: Name, sub: Pipeline, params: seq<Name>)
    ensures forall p | p in params :: Source(prefix, sub, p) in WrapperParams(prefix, sub, params)
    ensures forall s | s in WrapperParams(prefix, sub, params) :: exists p | p in params :: Source(prefix, sub, p) == s
  {
    if params != [] {
      var front, last := params[..|params| - 1], params[|params| - 1];
      WrapperParamsAreSources(prefix, sub, front);
      assert params == front + [last];
      forall s | s in WrapperParams(prefix, sub, params) ensures exists p | p in params :: Source(prefix, sub, p) == s {
        if s in WrapperParams(prefix, sub, front) {
          var p :| p in front && Source(prefix, sub, p) == s;
          assert p in params;
        } else {
          assert last in params && Source(prefix, sub, last) == s;
        }
      }
    }
  }

  /** If the wrapper finds in `outer` what the step finds in `env`, both calls give the same. */
  lemma WrappedCall(prefix: Name, sub: Pipeline, inner: Flat, env: Env, outer: Env)
    requires forall p | p in inner.params :: Argument(prefix, sub, outer, p) == Lookup(env, p)
    ensures var w := Wrap(prefix, sub, inner);
            Call(w.params, w.fn, outer) == Call(inner.params, inner.fn, env)
  {
    var w := Wrap(prefix, sub, inner);
    WrapperParamsAreSources(prefix, sub, inner.params);
    if forall p | p in w.params :: p in outer {
      var kwargs := map p | p in w.params :: outer[p];
      assert forall p | p in inner.params :: Argument(prefix, sub, kwargs, p) == Lookup(env, p);
      if Remappable(prefix, sub, inner.params, kwargs) {
        assert forall p | p in inner.params :: p in env;
        assert RemapKwargs(prefix, sub, inner.params, kwargs) == map p | p in inner.params :: env[p];
      } else {
        var p :| p in inner.params && Argument(prefix, sub, kwargs, p).None?;
        assert p !in env;
      }
    } else {
      var s :| s in w.params && s !in outer;
      var p :| p in inner.params && Source(prefix, sub, p) == s;
      assert p !in env;
    }
  }

  ghost predicate Simulates(prefix: Name, sub: Pipeline, inner: seq<Flat>, env: Env, outer: Env) {
    forall f, p | f in inner && p in f.params :: Argument(prefix, sub, outer, p) == Lookup(env, p)
  }

  lemma SourceOfStep(prefix: Name, sub: Pipeline, n: Name, p: Name)
    requires n !in sub.fields && n !in sub.resources && n != ADAPTER
    requires ExpandedName(prefix, sub.exports, n) !in sub.resources
    ensures Source(prefix, sub, p) == ExpandedName(prefix, sub.exports, n) <==> p == n && n != sub.exports
  {
    ScopedInjective(prefix, p, n);
    ScopedInjective(prefix, ADAPTER, n);
  }

  lemma SimulatesStep(prefix: Name, sub: Pipeline, inner: seq<Flat>, env: Env, outer: Env, n: Name, value: Option<Value>)
    requires Simulates(prefix, sub, inner, env, outer) && !Reads(inner, sub.exports)
    requires n !in sub.fields && n !in sub.resources && n != ADAPTER
    requires ExpandedName(prefix, sub.exports, n) !in sub.resources
    ensures Simulates(prefix, sub, inner, Bind(env, n, value), Bind(outer, ExpandedName(prefix, sub.exports, n), value))
  {
    forall f, p | f in inner && p in f.params
      ensures Argument(prefix, sub, Bind(outer, ExpandedName(prefix, sub.exports, n), value), p)
           == Lookup(Bind(env, n, value), p)
    {
      assert Argument(prefix, sub, outer, p) == Lookup(env, p);
      SourceOfStep(prefix, sub, n, p);
      assert p != sub.exports;
    }
  }

  /** Evaluating the wrapped steps gives the renamed values of the steps. */
  lemma {:induction false} WrappedEval(prefix: Name, sub: Pipeline, inner: seq<Flat>, env: Env, outer: Env)
    requires StepNamesApart(prefix, sub, inner) && !Reads(inner, sub.exports)
    requires Simulates(prefix, sub, inner, env, outer)
    ensures EvalFlat(WrapAll(prefix, sub, inner), outer) == Renamed(prefix, sub.exports, EvalFlat(inner, env))
    decreases |inner|
  {
    var wrapped := WrapAll(prefix, sub, inner);
    if inner != [] {
      var f, w := inner[0], wrapped[0];
      WrappedCall(prefix, sub, f, env, outer);
      var value := Call(f.params, f.fn, env);
      SimulatesStep(prefix, sub, inner, env, outer, f.name, value);
      var env', outer' := Bind(env, f.name, value), Bind(outer, w.name, value);
      WrappedEval(prefix, sub, inner[1..], env', outer');
      assert wrapped[1..] == WrapAll(prefix, sub, inner[1..]);
      RenamedCons(prefix, sub.exports, f.name, value, EvalFlat(inner[1..], env'));
    }
  }

  lemma RenamedCons(prefix: Name, exports: Name, n: Name, value: Option<Value>, log: Log)
    ensures Renamed(prefix, exports, [(n, value)] + log)
         == [(ExpandedName(prefix, exports, n), value)] + Renamed(prefix, exports, log)
  {
  }

  // ---------------------------------------------------------------------------
  // One include
  // ---------------------------------------------------------------------------

  lemma {:induction false} EvalAppend(a: seq<Flat>, b: seq<Flat>, env: Env)
    ensures EvalFlat(a + b, env) == EvalFlat(a, env) + EvalFlat(b, BindAll(env, EvalFlat(a, env)))
    decreases |a|
  {
    if a == [] {
      assert a + b == b;
    } else {
      assert (a + b)[1..] == a[1..] + b;
      EvalAppend(a[1..], b, Bind(env, a[0].name, Call(a[0].params, a[0].fn, env)));
      var log := EvalFlat(a, env);
      assert log[1..] == EvalFlat(a[1..], Bind(env, a[0].name, log[0].1));
    }
  }

  lemma {:induction false} BindAllElsewhere(env: Env, log: Log, p: Name)
    requires forall i :: 0 <= i < |log| ==> log[i].0 != p
    ensures Lookup(BindAll(env, log), p) == Lookup(env, p)
    decreases |log|
  {
    if log != [] { BindAllElsewhere(Bind(env, log[0].0, log[0].1), log[1..], p); }
  }

  lemma {:induction false} BindAllExported(env: Env, log: Log, inner: Env, prefix: Name, exports: Name)
    requires exports in inner ==> Lookup(env, prefix) == Some(inner[exports])
    ensures var bound, bound' := BindAll(inner, log), BindAll(env, Renamed(prefix, exports, log));
            && (exports in inner ==> exports in bound)
            && Lookup(bound', prefix) == if exports in bound then Some(bound[exports]) else Lookup(env, prefix)
    decreases |log|
  {
    if log != [] {
      var (n, v) := log[0];
      ScopedInjective(prefix, n, n);
      var renamed := Renamed(prefix, exports, log);
      assert renamed[1..] == Renamed(prefix, exports, log[1..]);
      BindAllExported(Bind(env, renamed[0].0, v), log[1..], Bind(inner, n, v), prefix, exports);
    }
  }

  /** `env` and `outer` give the same values to all names that are not hidden. */
  ghost predicate Agree(env: Env, outer: Env, hidden: set<Name>) {
    forall p :: p !in hidden ==> Lookup(env, p) == Lookup(outer, p)
  }

  lemma CallAgrees(params: seq<Name>, fn: Fn, env: Env, outer: Env, hidden: set<Name>)
    requires Agree(env, outer, hidden) && forall p | p in params :: p !in hidden
    ensures Call(params, fn, env) == Call(params, fn, outer)
  {
    assert forall p | p in params :: Lookup(env, p) == Lookup(outer, p);
    if forall p | p in params :: p in env {
      assert (map p | p in params :: env[p]) == (map p | p in params :: outer[p]);
    } else {
      var p :| p in params && p !in env;
      assert p !in outer;
    }
  }

  ghost predicate HasResources(outer: Env, resources: Env, declared: set<Name>) {
    forall r | r in declared :: Lookup(outer, r) == Lookup(resources, r)
  }

  lemma SubSimulates(prefix: Name, sub: Pipeline, inner: seq<Flat>, scope: set<Name>, declared: set<Name>,
                     resources: Env, outer: Env, adapter: Option<Value>)
    requires IncludeApart(prefix, sub, inner, scope, declared) && outer.Keys <= scope
    requires HasResources(outer, resources, declared) && PassedTo(sub, inner, declared)
    ensures Simulates(prefix, sub, inner, SubEnv(sub, adapter, resources), Bind(outer, Scoped(prefix, ADAPTER), adapter))
  {
    var env, outer' := SubEnv(sub, adapter, resources), Bind(outer, Scoped(prefix, ADAPTER), adapter);
    forall f, p | f in inner && p in f.params ensures Argument(prefix, sub, outer', p) == Lookup(env, p) {
      ScopedInjective(prefix, p, ADAPTER);
      if p in sub.fields {
      } else if p in sub.resources {
        assert Lookup(outer, p) == Lookup(resources, p);
      } else {
        assert p !in env;
      }
    }
  }

  lemma {:induction false} NamedLog(log: Log, steps: seq<Flat>, env: Env)
    requires log == EvalFlat(steps, env)
    ensures forall i :: 0 <= i < |log| ==> log[i].0 == steps[i].name
    decreases |steps|
  {
    if steps != [] {
      NamedLog(log[1..], steps[1..], Bind(env, steps[0].name, log[0].1));
    }
  }

  /** The keys and resources after the steps of one declared step have been bound. */
  lemma {:induction false} BindAllKeys(env: Env, log: Log, scope: set<Name>, names: set<Name>)
    requires env.Keys <= scope && forall i :: 0 <= i < |log| ==> log[i].0 in names
    ensures BindAll(env, log).Keys <= scope + names
    decreases |log|
  {
    if log != [] { BindAllKeys(Bind(env, log[0].0, log[0].1), log[1..], scope + names, names); }
  }

  // ---------------------------------------------------------------------------
  // Meaning is preserved
  // ---------------------------------------------------------------------------

  lemma {:induction false} IncludeFlattens(step: Declared, scope: set<Name>, declared: set<Name>, resources: Env, env: Env, outer: Env)
    requires step.Include? && IncludeApart(step.name, step.pipeline, Expand(step.pipeline.steps), scope, declared)
    requires !Reads(Expand(step.pipeline.steps), step.pipeline.exports)
    requires PassedTo(step.pipeline, Expand(step.pipeline.steps), declared)
    requires outer.Keys <= scope && HasResources(outer, resources, declared)
    requires Call(step.params, step.fn, env) == Call(step.params, step.fn, outer)
    requires var subEnv := SubEnv(step.pipeline, Call(step.params, step.fn, outer), resources);
             EvalFlat(Expand(step.pipeline.steps), subEnv) == Named(EvalNested(resources, step.pipeline.steps, subEnv))
    ensures EvalFlat(ExpandOne(step), outer) == NamedOne(EvalOne(resources, step, env))
  {
    var sub, prefix := step.pipeline, step.name;
    var inner, adapter := Expand(sub.steps), Call(step.params, step.fn, outer);
    SubSimulates(prefix, sub, inner, scope, declared, resources, outer, adapter);
    WrappedEval(prefix, sub, inner, SubEnv(sub, adapter, resources), Bind(outer, Scoped(prefix, ADAPTER), adapter));
    assert ExpandOne(step)[1..] == WrapAll(prefix, sub, inner);
  }

  /** One declared step has the same values flattened and nested. */
  lemma {:induction false} OneStepFlattens(step: Declared, hidden: set<Name>, scope: set<Name>, declared: set<Name>,
                        resources: Env, env: Env, outer: Env)
    requires NamesApart([step], hidden, scope, declared) && NoExportReads([step]) && ResourcesPassed([step], declared)
    requires Agree(env, outer, hidden) && outer.Keys <= scope && HasResources(outer, resources, declared)
    ensures EvalFlat(ExpandOne(step), outer) == NamedOne(EvalOne(resources, step, env))
    decreases step, 1
  {
    CallAgrees(step.params, step.fn, env, outer, hidden);
    assert [step][0] == step;
    if step.Include? {
      var sub := step.pipeline;
      var subEnv := SubEnv(sub, Call(step.params, step.fn, outer), resources);
      assert HasResources(subEnv, resources, ResourcesOf(sub));
      StepsFlatten(sub.steps, Hidden(sub.steps), ScopeOf(sub), ResourcesOf(sub), resources, subEnv, subEnv);
      IncludeFlattens(step, scope, declared, resources, env, outer);
    } else {
      assert ExpandOne(step)[1..] == [];
    }
  }

  lemma {:induction false} OneStepBinds(step: Declared, hidden: set<Name>, scope: set<Name>, declared: set<Name>,
                     resources: Env, env: Env, outer: Env)
    requires NamesApart([step], hidden, scope, declared)
    requires Agree(env, outer, hidden) && outer.Keys <= scope && HasResources(outer, resources, declared)
    requires EvalFlat(ExpandOne(step), outer) == NamedOne(EvalOne(resources, step, env))
    ensures var trace, log := EvalOne(resources, step, env), EvalFlat(ExpandOne(step), outer);
            var env', outer' := Bind(env, step.name, Result(trace)), BindAll(outer, log);
            && Agree(env', outer', hidden)
            && outer'.Keys <= scope + NamesOf(ExpandOne(step))
            && HasResources(outer', resources, declared)
  {
    var flat := ExpandOne(step);
    var trace, log := EvalOne(resources, step, env), EvalFlat(flat, outer);
    var env', outer' := Bind(env, step.name, Result(trace)), BindAll(outer, log);
    NamedLog(log, flat, outer);
    assert [step][0] == step;
    BindAllKeys(outer, log, scope, NamesOf(flat));
    forall r | r in declared ensures Lookup(outer', r) == Lookup(resources, r) {
      BindAllElsewhere(outer, log, r);
    }
    forall p | p !in hidden ensures Lookup(env', p) == Lookup(outer', p) {
      if p != step.name {
        BindAllElsewhere(outer, log, p);
      } else if step.Include? {
        ScopedInjective(p, ADAPTER, ADAPTER);
        var renamed := Renamed(p, trace.exports, Named(trace.inner));
        assert log[1..] == renamed;
        BindAllExported(Bind(outer, log[0].0, log[0].1), Named(trace.inner), map[], p, trace.exports);
      } else {
        assert log[1..] == [];
      }
    }
  }

  lemma {:induction false} StepsFlatten(steps: seq<Declared>, hidden: set<Name>, scope: set<Name>, declared: set<Name>,
                     resources: Env, env: Env, outer: Env)
    requires NamesApart(steps, hidden, scope, declared) && NoExportReads(steps) && ResourcesPassed(steps, declared)
    requires Agree(env, outer, hidden) && outer.Keys <= scope && HasResources(outer, resources, declared)
    ensures EvalFlat(Expand(steps), outer) == Named(EvalNested(resources, steps, env))
    decreases steps, 2
  {
    if steps != [] {
      var step := steps[0];
      assert [step][1..] == [];
      OneStepFlattens(step, hidden, scope, declared, resources, env, outer);
      OneStepBinds(step, hidden, scope, declared, resources, env, outer);
      var log := EvalFlat(ExpandOne(step), outer);
      EvalAppend(ExpandOne(step), Expand(steps[1..]), outer);
      StepsFlatten(steps[1..], hidden, scope + NamesOf(ExpandOne(step)), declared, resources,
                   Bind(env, step.name, Result(EvalOne(resources, step, env))), BindAll(outer, log));
    }
  }

  /** The names of a pipeline keep apart at every level of inclusion. */
  ghost predicate WellNamed(root: Pipeline) {
    && (forall r | r in root.resources :: r !in root.fields)
    && NamesApart(root.steps, Hidden(root.steps), ScopeOf(root), ResourcesOf(root))
  }

  /** For any nesting depth, the flattened steps compute under their new names exactly what the
      nested pipelines compute, adapters and inner steps included, in the same order. */
  lemma ExpansionPreservesMeaning(root: Pipeline, params: Value, resources: Env)
    requires WellNamed(root) && NoExportReads(root.steps) && ResourcesPassed(root.steps, ResourcesOf(root))
    ensures var env := SubEnv(root, Some(params), resources);
            EvalFlat(Expand(root.steps), env) == Named(EvalNested(resources, root.steps, env))
  {
    var env := SubEnv(root, Some(params), resources);
    assert HasResources(env, resources, ResourcesOf(root));
    StepsFlatten(root.steps, Hidden(root.steps), ScopeOf(root), ResourcesOf(root), resources, env, env);
  }

  // ---------------------------------------------------------------------------
  // Which references still resolve
  // ---------------------------------------------------------------------------

  /** Every argument of a flattened step names a field, a resource or an earlier step. */
  ghost predicate Resolves(steps: seq<Flat>, scope: set<Name>)
    decreases |steps|
  {
    steps == [] ||
    ((forall p | p in steps[0].params :: p in scope) && Resolves(steps[1..], scope + {steps[0].name}))
  }

  /** The same for the declared steps, each pipeline seeing only its own names. */
  ghost predicate ResolvesNested(steps: seq<Declared>, scope: set<Name>)
    decreases steps
  {
    steps == [] ||
    (&& (forall p | p in steps[0].params :: p in scope)
     && (steps[0].Include? ==> ResolvesNested(steps[0].pipeline.steps, ScopeOf(steps[0].pipeline)))
     && ResolvesNested(steps[1..], scope + {steps[0].name}))
  }

  lemma {:induction false} ResolvesAppend(a: seq<Flat>, b: seq<Flat>, scope: set<Name>)
    ensures Resolves(a + b, scope) <==> Resolves(a, scope) && Resolves(b, scope + NamesOf(a))
    decreases |a|
  {
    if a == [] {
      assert a + b == b && scope + NamesOf(a) == scope;
    } else {
      assert (a + b)[1..] == a[1..] + b;
      assert a == [a[0]] + a[1..];
      assert scope + NamesOf(a) == scope + {a[0].name} + NamesOf(a[1..]);
      ResolvesAppend(a[1..], b, scope + {a[0].name});
    }
  }

  /** `outer` holds the source of an inner argument exactly when `scope` holds the argument. */
  ghost predicate SourcesIn(prefix: Name, sub: Pipeline, inner: seq<Flat>, scope: set<Name>, outer: set<Name>) {
    forall f, p | f in inner && p in f.params ::
      Source(prefix, sub, p) in outer <==> p in scope && p != sub.exports
  }

  lemma SourcesInStep(prefix: Name, sub: Pipeline, inner: seq<Flat>, scope: set<Name>, outer: set<Name>, n: Name)
    requires SourcesIn(prefix, sub, inner, scope, outer)
    requires n !in sub.fields && n !in sub.resources && n != ADAPTER
    requires ExpandedName(prefix, sub.exports, n) !in sub.resources
    ensures SourcesIn(prefix, sub, inner, scope + {n}, outer + {ExpandedName(prefix, sub.exports, n)})
  {
    forall f, p | f in inner && p in f.params
      ensures Source(prefix, sub, p) in outer + {ExpandedName(prefix, sub.exports, n)}
              <==> p in scope + {n} && p != sub.exports
    {
      SourceOfStep(prefix, sub, n, p);
      assert Source(prefix, sub, p) in outer <==> p in scope && p != sub.exports;
    }
  }

  lemma {:induction false} WrappedResolves(prefix: Name, sub: Pipeline, inner: seq<Flat>,
                                            scope: set<Name>, outer: set<Name>)
    requires StepNamesApart(prefix, sub, inner) && SourcesIn(prefix, sub, inner, scope, outer)
    ensures Resolves(WrapAll(prefix, sub, inner), outer) <==> Resolves(inner, scope) && !Reads(inner, sub.exports)
    decreases |inner|
  {
    if inner != [] {
      var f, wrapped := inner[0], WrapAll(prefix, sub, inner);
      assert f in inner && (forall g | g in inner[1..] :: g in inner) && forall g | g in inner :: g == f || g in inner[1..];
      assert wrapped[1..] == WrapAll(prefix, sub, inner[1..]);
      SourcesInStep(prefix, sub, inner, scope, outer, f.name);
      WrappedResolves(prefix, sub, inner[1..], scope + {f.name}, outer + {wrapped[0].name});
      WrapperParamsAreSources(prefix, sub, f.params);
      assert (forall s | s in wrapped[0].params :: s in outer)
        <==> (forall p | p in f.params :: p in scope && p != sub.exports);
    }
  }

  /** Taking names away that no step binds. */
  lemma {:induction false} ResolvesWithout(inner: seq<Flat>, scope: set<Name>, gone: set<Name>)
    requires forall f | f in inner :: f.name !in gone
    ensures Resolves(inner, scope - gone)
       <==> Resolves(inner, scope) && forall f, p | f in inner && p in f.params :: p !in gone
    decreases |inner|
  {
    if inner != [] {
      var f := inner[0];
      assert inner == [f] + inner[1..] && f in inner && forall g | g in inner[1..] :: g in inner;
      assert scope - gone + {f.name} == scope + {f.name} - gone;
      ResolvesWithout(inner[1..], scope + {f.name}, gone);
      assert (forall p | p in f.params :: p in scope - gone)
        <==> (forall p | p in f.params :: p in scope) && forall p | p in f.params :: p !in gone;
    }
  }

  lemma PassedExactly(sub: Pipeline, inner: seq<Flat>, declared: set<Name>)
    ensures (forall f, p | f in inner && p in f.params :: p !in ResourcesOf(sub) - declared)
       <==> PassedTo(sub, inner, declared)
  {
    if forall f, p | f in inner && p in f.params :: p !in ResourcesOf(sub) - declared {
      forall f, r | f in inner && r in f.params && r in sub.resources
        ensures r in declared || r in ResourcesOf(sub) - declared
      {
      }
    }
  }

  lemma IncludeResolves(step: Declared, scope: set<Name>, declared: set<Name>, outer: set<Name>)
    requires step.Include? && IncludeApart(step.name, step.pipeline, Expand(step.pipeline.steps), scope, declared)
    requires outer <= scope && declared <= outer
    ensures var sub, inner := step.pipeline, Expand(step.pipeline.steps);
      Resolves(WrapAll(step.name, sub, inner), outer + {Scoped(step.name, ADAPTER)})
      <==> Resolves(inner, ScopeOf(sub)) && !Reads(inner, sub.exports) && PassedTo(sub, inner, declared)
  {
    var prefix, sub := step.name, step.pipeline;
    var inner, outer' := Expand(sub.steps), outer + {Scoped(prefix, ADAPTER)};
    var gone := ResourcesOf(sub) - declared;
    assert sub.exports !in ScopeOf(sub);
    forall f, p | f in inner && p in f.params
      ensures Source(prefix, sub, p) in outer' <==> p in ScopeOf(sub) - gone && p != sub.exports
    {
      ScopedInjective(prefix, p, ADAPTER);
    }
    WrappedResolves(prefix, sub, inner, ScopeOf(sub) - gone, outer');
    ResolvesWithout(inner, ScopeOf(sub), gone);
    PassedExactly(sub, inner, declared);
  }

  lemma {:induction false} StepsResolve(steps: seq<Declared>, hidden: set<Name>, scope: set<Name>, declared: set<Name>,
                     visible: set<Name>, outer: set<Name>)
    requires NamesApart(steps, hidden, scope, declared)
    requires outer <= scope && declared <= outer && forall p :: p !in hidden ==> (p in visible <==> p in outer)
    ensures Resolves(Expand(steps), outer)
       <==> ResolvesNested(steps, visible) && NoExportReads(steps) && ResourcesPassed(steps, declared)
    decreases steps
  {
    if steps != [] {
      var step := steps[0];
      var flat := ExpandOne(step);
      ResolvesAppend(flat, Expand(steps[1..]), outer);
      assert forall f | f in flat :: f.name == step.name || f.name in hidden;
      if step.Include? {
        var sub := step.pipeline;
        IncludeResolves(step, scope, declared, outer);
        StepsResolve(sub.steps, Hidden(sub.steps), ScopeOf(sub), ResourcesOf(sub), ScopeOf(sub), ScopeOf(sub));
        assert flat[1..] == WrapAll(step.name, sub, Expand(sub.steps));
        ExportIsNamed(step);
      } else {
        assert flat[1..] == [];
        assert flat[0] in flat;
      }
      assert step.name in NamesOf(flat);
      StepsResolve(steps[1..], hidden, scope + NamesOf(flat), declared, visible + {step.name}, outer + NamesOf(flat));
    }
  }

  lemma WrappedName(prefix: Name, sub: Pipeline, inner: seq<Flat>, i: nat)
    requires i < |inner| && inner[i].name == sub.exports
    ensures prefix in NamesOf(WrapAll(prefix, sub, inner))
  {
    var w := WrapAll(prefix, sub, inner)[i];
    assert w in WrapAll(prefix, sub, inner) && w.name == prefix;
  }

  lemma ExportIsNamed(step: Declared)
    requires step.Include? && step.pipeline.exports in NamesOf(Expand(step.pipeline.steps))
    ensures step.name in NamesOf(ExpandOne(step))
  {
    var inner := Expand(step.pipeline.steps);
    var f :| f in inner && f.name == step.pipeline.exports;
    var i :| 0 <= i < |inner| && inner[i] == f;
    WrappedName(step.name, step.pipeline, inner, i);
    var wrapped := WrapAll(step.name, step.pipeline, inner);
    var w :| w in wrapped && w.name == step.name;
    assert w in ExpandOne(step);
  }

  /** Expansion keeps every reference resolvable exactly when every reference resolves inside its
      own pipeline, no inner step takes its pipeline's exported step as an argument, and every
      resource that is read below an include is declared by the including pipeline. */
  lemma ExpansionResolvesExactly(root: Pipeline)
    requires WellNamed(root)
    ensures Resolves(Expand(root.steps), ScopeOf(root))
       <==> ResolvesNested(root.steps, ScopeOf(root)) && NoExportReads(root.steps)
            && ResourcesPassed(root.steps, ResourcesOf(root))
  {
    StepsResolve(root.steps, Hidden(root.steps), ScopeOf(root), ResourcesOf(root), ScopeOf(root), ScopeOf(root));
  }

  /** A sub-pipeline whose second step reads the first one, which is also the exported one. */
  function ExportReader(fn: Fn): Pipeline {
    Pipeline([], [], "x", [Step("x", [], fn), Step("y", ["x"], fn)])
  }

  lemma ExpandPlain(name: Name, params: seq<Name>, fn: Fn, rest: seq<Declared>)
    ensures Expand([Step(name, params, fn)] + rest) == [Flat(name, params, fn)] + Expand(rest)
  {
    assert ([Step(name, params, fn)] + rest)[1..] == rest;
  }

  /** `NamesApart` of a plain step in front of others. */
  lemma NamesApartPlain(name: Name, params: seq<Name>, fn: Fn, rest: seq<Declared>,
                        hidden: set<Name>, scope: set<Name>, declared: set<Name>)
    requires name !in hidden && name !in declared && forall p | p in params :: p !in hidden
    requires NamesApart(rest, hidden, scope + {name}, declared)
    ensures NamesApart([Step(name, params, fn)] + rest, hidden, scope, declared)
  {
    var step := Step(name, params, fn);
    assert ([step] + rest)[1..] == rest;
    assert NamesOf(ExpandOne(step)) == {name};
  }

  lemma ExportReaderNames(fn: Fn)
    ensures var sub := ExportReader(fn);
            && Expand(sub.steps) == [Flat("x", [], fn), Flat("y", ["x"], fn)]
            && Hidden(sub.steps) == {} && NamesApart(sub.steps, {}, {}, {})
            && ResolvesNested(sub.steps, {})
  {
    var x, y := Step("x", [], fn), Step("y", ["x"], fn);
    assert [x, y] == [x] + [y] && [y] == [y] + [] && [x, y][1..] == [y];
    ExpandPlain("y", ["x"], fn, []);
    ExpandPlain("x", [], fn, [y]);
    NamesApartPlain("y", ["x"], fn, [], {}, {"x"}, {});
    NamesApartPlain("x", [], fn, [y], {}, {}, {});
    assert Hidden([y]) == {} && Hidden([x, y]) == {};
    assert ResolvesNested([y], {"x"});
  }

  /** It compiles on its own, but not once it is included. */
  lemma ExportReadBreaks(fn: Fn)
    ensures var root := Pipeline([], [], "inc", [Include("inc", [], fn, ExportReader(fn))]);
            WellNamed(root) && ResolvesNested(root.steps, {}) && !Resolves(Expand(root.steps), {})
  {
    ExportReaderNames(fn);
    var sub := ExportReader(fn);
    var inc := Include("inc", [], fn, sub);
    var root := Pipeline([], [], "inc", [inc]);
    var inner := Expand(sub.steps);
    assert inner[0].name == sub.exports && sub.exports in inner[1].params && inner[1] in inner;
    assert ScopeOf(root) == {} && ScopeOf(sub) == {} && ResourcesOf(sub) == {} && ResourcesOf(root) == {};
    assert [inc][1..] == [];
    assert IncludeApart("inc", sub, inner, {}, {});
    assert NamesApart([inc], Hidden([inc]), {}, {});
    ExpansionResolvesExactly(root);
  }

  /** A pipeline that includes one with a resource without declaring it: `_collect_pipeline_resources`
      gives the resource to the pipeline that is built, and only to that one. */
  function Keeper(fn: Fn): Pipeline {
    Pipeline([], ["r"], "y", [Step("y", ["r"], fn)])
  }

  function Between(fn: Fn, resources: seq<Name>): Pipeline {
    Pipeline([], resources, "b", [Include("b", [], fn, Keeper(fn))])
  }

  function Outermost(fn: Fn): Pipeline {
    Pipeline([], ["r"], "a", [Include("a", [], fn, Between(fn, []))])
  }

  lemma KeeperNames(fn: Fn)
    ensures Expand(Keeper(fn).steps) == [Flat("y", ["r"], fn)] && Hidden(Keeper(fn).steps) == {}
    ensures NamesApart(Keeper(fn).steps, {}, {"r"}, {"r"}) && ResolvesNested(Keeper(fn).steps, {"r"})
    ensures ResourcesOf(Keeper(fn)) == {"r"} == ScopeOf(Keeper(fn))
  {
    assert [Step("y", ["r"], fn)] == [Step("y", ["r"], fn)] + [];
    ExpandPlain("y", ["r"], fn, []);
    NamesApartPlain("y", ["r"], fn, [], {}, {"r"}, {"r"});
    assert Keeper(fn).steps[1..] == [];
  }

  lemma BetweenExpands(fn: Fn, resources: seq<Name>)
    ensures var flat := Expand(Between(fn, resources).steps);
      && |flat| == 2 && flat[0].name == "b__adapter" && flat[0].params == []
      && flat[1].name == "b" && flat[1].params == ["r"]
  {
    KeeperNames(fn);
    var inc := Between(fn, resources).steps[0];
    assert [inc][1..] == [] && Expand([inc]) == ExpandOne(inc) + Expand([]);
    var inner := Flat("y", ["r"], fn);
    assert ["r"][..0] == [];
    assert WrapperParams("b", Keeper(fn), ["r"]) == ["r"];
    assert ExpandOne(inc)[1] == Wrap("b", Keeper(fn), inner);
  }

  /** `NamesApart` of a single include without arguments. */
  lemma NamesApartInclude(inc: Declared, scope: set<Name>, declared: set<Name>)
    requires inc.Include? && inc.params == []
    requires IncludeApart(inc.name, inc.pipeline, Expand(inc.pipeline.steps), scope, declared)
    requires var sub := inc.pipeline; NamesApart(sub.steps, Hidden(sub.steps), ScopeOf(sub), ResourcesOf(sub))
    requires forall n | n in NamesOf(ExpandOne(inc)) :: n !in declared
    requires inc.name !in declared
    ensures NamesApart([inc], Hidden([inc]), scope, declared)
  {
    assert [inc][1..] == [];
    forall f | f in ExpandOne(inc) ensures f.name !in declared && (f.name == inc.name || f.name in Hidden([inc])) {
      assert f.name in NamesOf(ExpandOne(inc));
    }
  }

  lemma SingleInclude(inc: Declared, declared: set<Name>)
    requires inc.Include? && inc.params == []
    ensures var sub, inner := inc.pipeline, Expand(inc.pipeline.steps);
      && (ResolvesNested([inc], {}) <==> ResolvesNested(sub.steps, ScopeOf(sub)))
      && (ResolvesNested([inc], declared) <==> ResolvesNested(sub.steps, ScopeOf(sub)))
      && (NoExportReads([inc]) <==> NoExportReads(sub.steps) && !Reads(inner, sub.exports))
      && (ResourcesPassed([inc], declared)
          <==> PassedTo(sub, inner, declared) && ResourcesPassed(sub.steps, ResourcesOf(sub)))
  {
    assert [inc][1..] == [];
  }

  lemma BetweenApart(fn: Fn, scope: set<Name>)
    requires scope <= {"r"}
    ensures IncludeApart("b", Keeper(fn), Expand(Keeper(fn).steps), scope, scope)
  {
    KeeperNames(fn);
    assert Expand(Keeper(fn).steps)[0] in Expand(Keeper(fn).steps);
  }

  lemma BetweenIntroduces(fn: Fn, resources: seq<Name>)
    ensures forall n | n in NamesOf(ExpandOne(Between(fn, resources).steps[0])) :: n != "r"
  {
    BetweenExpands(fn, resources);
    var inc := Between(fn, resources).steps[0];
    assert [inc][1..] == [] && Expand([inc]) == ExpandOne(inc);
    assert forall f | f in ExpandOne(inc) :: f == ExpandOne(inc)[0] || f == ExpandOne(inc)[1];
  }

  lemma BetweenNames(fn: Fn, resources: seq<Name>, scope: set<Name>)
    requires scope <= {"r"}
    ensures NamesApart(Between(fn, resources).steps, Hidden(Between(fn, resources).steps), scope, scope)
  {
    KeeperNames(fn);
    BetweenApart(fn, scope);
    BetweenIntroduces(fn, resources);
    NamesApartInclude(Between(fn, resources).steps[0], scope, scope);
  }

  lemma KeeperReads(fn: Fn, scope: set<Name>)
    ensures NoExportReads(Keeper(fn).steps) && !Reads(Expand(Keeper(fn).steps), "y")
    ensures ResourcesPassed(Keeper(fn).steps, {"r"})
    ensures PassedTo(Keeper(fn), Expand(Keeper(fn).steps), scope) <==> "r" in scope
  {
    KeeperNames(fn);
    assert Keeper(fn).steps[1..] == [];
    var inner := Expand(Keeper(fn).steps);
    assert inner[0] in inner && "r" in inner[0].params;
  }

  lemma BetweenReads(fn: Fn, resources: seq<Name>, scope: set<Name>)
    ensures ResolvesNested(Between(fn, resources).steps, scope) && NoExportReads(Between(fn, resources).steps)
    ensures ResourcesPassed(Between(fn, resources).steps, scope) <==> "r" in scope
  {
    KeeperNames(fn);
    KeeperReads(fn, scope);
    SingleInclude(Between(fn, resources).steps[0], scope);
  }

  lemma OutermostNames(fn: Fn)
    ensures WellNamed(Outermost(fn))
  {
    var sub, root := Between(fn, []), Outermost(fn);
    BetweenNames(fn, [], {});
    assert ScopeOf(root) == {"r"} == ResourcesOf(root) && ScopeOf(sub) == {} == ResourcesOf(sub);
    OutermostApart(fn);
    OutermostIntroduces(fn);
    NamesApartInclude(root.steps[0], {"r"}, {"r"});
  }

  lemma OutermostReads(fn: Fn)
    ensures var root := Outermost(fn);
      && ResolvesNested(root.steps, {"r"}) && NoExportReads(root.steps) && !ResourcesPassed(root.steps, {"r"})
  {
    var sub := Between(fn, []);
    BetweenReads(fn, [], {});
    BetweenExpands(fn, []);
    assert ScopeOf(sub) == {} == ResourcesOf(sub);
    var inner := Expand(sub.steps);
    assert forall f | f in inner :: f == inner[0] || f == inner[1];
    SingleInclude(Outermost(fn).steps[0], {"r"});
  }

  lemma OutermostApart(fn: Fn)
    ensures IncludeApart("a", Between(fn, []), Expand(Between(fn, []).steps), {"r"}, {"r"})
  {
    var sub := Between(fn, []);
    BetweenExpands(fn, []);
    var inner := Expand(sub.steps);
    assert inner[1] in inner && inner[1].name == sub.exports;
    assert forall f | f in inner :: f == inner[0] || f == inner[1];
  }

  /** All names an include introduces begin with its own. */
  lemma OutermostIntroduces(fn: Fn)
    ensures forall n | n in NamesOf(ExpandOne(Outermost(fn).steps[0])) :: n !in {"r"}
  {
    var sub, inc := Between(fn, []), Outermost(fn).steps[0];
    forall f | f in ExpandOne(inc) ensures f.name[..1] == "a" {
      if f != ExpandOne(inc)[0] {
        assert f in WrapAll("a", sub, Expand(sub.steps));
      }
    }
  }

  /** The pipeline in between compiles on its own, where it has the resource, but not once it is included:
      its steps then look for "a__r". */
  lemma UndeclaredResourceBreaks(fn: Fn)
    ensures var own, root := Between(fn, ["r"]), Outermost(fn);
      && WellNamed(own) && Resolves(Expand(own.steps), ScopeOf(own))
      && WellNamed(root) && ResolvesNested(root.steps, ScopeOf(root)) && NoExportReads(root.steps)
      && !Resolves(Expand(root.steps), ScopeOf(root))
  {
    BetweenNames(fn, ["r"], {"r"});
    BetweenReads(fn, ["r"], {"r"});
    var own, root := Between(fn, ["r"]), Outermost(fn);
    assert ScopeOf(own) == {"r"} == ResourcesOf(own) && ScopeOf(root) == {"r"} == ResourcesOf(root);
    ExpansionResolvesExactly(own);
    OutermostNames(fn);
    OutermostReads(fn);
    ExpansionResolvesExactly(root);
  }

  // ---------------------------------------------------------------------------
  // The loops
  // ---------------------------------------------------------------------------

  lemma {:induction false} ExpandSnoc(steps: seq<Declared>, step: Declared)
    ensures Expand(steps + [step]) == Expand(steps) + ExpandOne(step)
    decreases |steps|
  {
    if steps == [] {
      assert ([step])[1..] == [];
    } else {
      assert (steps + [step])[1..] == steps[1..] + [step];
      ExpandSnoc(steps[1..], step);
    }
  }

  method ExpandMacros(steps: seq<Declared>) returns (expanded: seq<Flat>)
    ensures expanded == Expand(steps)
    decreases steps
  {
    expanded := [];
    for i := 0 to |steps|
      invariant expanded == Expand(steps[..i])
    {
      ExpandSnoc(steps[..i], steps[i]);
      assert steps[..i] + [steps[i]] == steps[..i + 1];
      match steps[i]
      case Step(name, params, fn) => expanded := expanded + [Flat(name, params, fn)];
      case Include(name, params, fn, sub) =>
        var inner := ExpandMacros(sub.steps);
        var wrapped: seq<Flat> := [];
        for j := 0 to |inner|
          invariant wrapped == WrapAll(name, sub, inner)[..j]
        {
          var signature := BuildWrapperSignature(name, sub, inner[j].params);
          wrapped := wrapped + [Flat(ExpandedName(name, sub.exports, inner[j].name), signature, WrapFn(name, sub, inner[j]))];
        }
        expanded := expanded + [Flat(Scoped(name, ADAPTER), params, fn)] + wrapped;
    }
    assert steps[..|steps|] == steps;
  }

  method BuildWrapperSignature(prefix: Name, sub: Pipeline, params: seq<Name>) returns (parameters: seq<Name>)
    ensures parameters == WrapperParams(prefix, sub, params)
    ensures forall i, j :: 0 <= i < j < |parameters| ==> parameters[i] != parameters[j]
  {
    parameters := [];
    var seen: set<Name> := {};
    for i := 0 to |params|
      invariant parameters == WrapperParams(prefix, sub, params[..i])
      invariant seen == set s | s in parameters
      invariant forall i, j :: 0 <= i < j < |parameters| ==> parameters[i] != parameters[j]
    {
      assert params[..i + 1][..i] == params[..i];
      var mapped := Source(prefix, sub, params[i]);
      if mapped !in seen {
        seen := seen + {mapped};
        parameters := parameters + [mapped];
      }
    }
    assert params[..|params|] == params;
  }
}
