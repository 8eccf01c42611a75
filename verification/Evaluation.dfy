/** What the two evaluators of `Expansion` compute, without their own definitions: every step gets, for each
    of its arguments, the latest value under that name, and runs exactly if there is one for all of them. */
module Evaluation {
  import opened Wrappers
  import opened Expansion

  // ---------------------------------------------------------------------------
  // Arguments
  // ---------------------------------------------------------------------------

  /** The last value logged under a name, or else the one that was there before. */
  function Latest(env: Env, log: Log, n: Name): Option<Value> {
    if log == [] then if n in env then Some(env[n]) else None
    else
      var last := log[|log| - 1];
      if last.0 == n && last.1.Some? then last.1 else Latest(env, log[..|log| - 1], n)
  }

  /** The call of a step that finds `value(p)` for argument p. */
  ghost predicate CalledWith(params: seq<Name>, fn: Fn, value: Name -> Option<Value>, result: Option<Value>) {
    if forall p | p in params :: value(p).Some?
    then exists kwargs: Env ::
           (forall p :: p in kwargs <==> p in params) && (forall p | p in params :: value(p) == Some(kwargs[p]))
           && result == fn(kwargs)
    else result.None?
  }

  lemma {:induction false} BindAllSnoc(env: Env, log: Log, n: Name, value: Option<Value>)
    ensures BindAll(env, log + [(n, value)]) == Bind(BindAll(env, log), n, value)
    decreases |log|
  {
    if log == [] {
      assert ([] + [(n, value)])[1..] == [];
    } else {
      assert (log + [(n, value)])[1..] == log[1..] + [(n, value)];
      BindAllSnoc(Bind(env, log[0].0, log[0].1), log[1..], n, value);
    }
  }

  lemma {:induction false} BoundIsLatest(env: Env, log: Log, n: Name)
    ensures Latest(env, log, n) == if n in BindAll(env, log) then Some(BindAll(env, log)[n]) else None
    decreases |log|
  {
    if log != [] {
      var front, last := log[..|log| - 1], log[|log| - 1];
      BoundIsLatest(env, front, n);
      BindAllSnoc(env, front, last.0, last.1);
      assert log == front + [(last.0, last.1)];
    }
  }

  lemma CallFinds(params: seq<Name>, fn: Fn, env: Env, log: Log)
    ensures CalledWith(params, fn, n => Latest(env, log, n), Call(params, fn, BindAll(env, log)))
  {
    var bound := BindAll(env, log);
    forall p | p in params ensures Latest(env, log, p) == if p in bound then Some(bound[p]) else None {
      BoundIsLatest(env, log, p);
    }
    if forall p | p in params :: p in bound {
      var kwargs := map p | p in params :: bound[p];
      assert forall p :: p in kwargs <==> p in params;
    }
  }

  // ---------------------------------------------------------------------------
  // A flattened run
  // ---------------------------------------------------------------------------

  lemma {:induction false} EvalFlatAt(steps: seq<Flat>, env: Env, i: nat)
    requires i < |steps|
    ensures var log := EvalFlat(steps, env);
      log[i] == (steps[i].name, Call(steps[i].params, steps[i].fn, BindAll(env, log[..i])))
    decreases |steps|
  {
    if i > 0 {
      var log := EvalFlat(steps, env);
      EvalFlatAt(steps[1..], Bind(env, log[0].0, log[0].1), i - 1);
      assert log[1..][..i - 1] == log[..i][1..];
    }
  }

  /** Step i of a flattened pipeline, for all steps: what it finds are the latest values before it. */
  lemma FlatRun(steps: seq<Flat>, env: Env, i: nat)
    requires i < |steps|
    ensures var log := EvalFlat(steps, env);
      log[i].0 == steps[i].name && CalledWith(steps[i].params, steps[i].fn, n => Latest(env, log[..i], n), log[i].1)
  {
    EvalFlatAt(steps, env, i);
    CallFinds(steps[i].params, steps[i].fn, env, EvalFlat(steps, env)[..i]);
  }

  // ---------------------------------------------------------------------------
  // A nested run
  // ---------------------------------------------------------------------------

  /** What the steps of one pipeline bind, an include binding what its pipeline exports. */
  function Bindings(steps: seq<Declared>, traces: seq<Trace>): (log: Log)
    requires |steps| == |traces|
  {
    seq(|steps|, i requires 0 <= i < |steps| => (steps[i].name, Expansion.Result(traces[i])))
  }

  lemma {:induction false} NestedLength(resources: Env, steps: seq<Declared>, env: Env)
    ensures |EvalNested(resources, steps, env)| == |steps|
    decreases |steps|
  {
    if steps != [] {
      NestedLength(resources, steps[1..], Bind(env, steps[0].name, Expansion.Result(EvalOne(resources, steps[0], env))));
    }
  }

  lemma {:induction false} EvalNestedAt(resources: Env, steps: seq<Declared>, env: Env, i: nat)
    requires i < |steps|
    ensures |EvalNested(resources, steps, env)| == |steps|
    ensures var traces := EvalNested(resources, steps, env);
      traces[i] == EvalOne(resources, steps[i], BindAll(env, Bindings(steps, traces)[..i]))
    decreases |steps|
  {
    NestedLength(resources, steps, env);
    if i > 0 {
      var traces := EvalNested(resources, steps, env);
      EvalNestedAt(resources, steps[1..], Bind(env, steps[0].name, Expansion.Result(traces[0])), i - 1);
      var log := Bindings(steps, traces);
      assert Bindings(steps[1..], traces[1..]) == log[1..];
      assert log[1..][..i - 1] == log[..i][1..] && log[..i][0] == log[0];
    }
  }

  /** Step i of a pipeline with includes.  The pipeline below an include is evaluated in the same way, on
      the fields of what the include's function returned, and counts by the latest value of its export. */
  lemma NestedRun(resources: Env, steps: seq<Declared>, env: Env, i: nat)
    requires i < |steps|
    ensures |EvalNested(resources, steps, env)| == |steps|
    ensures var traces := EvalNested(resources, steps, env);
            var finds := n => Latest(env, Bindings(steps, traces)[..i], n);
      match traces[i]
      case One(name, value) =>
        steps[i].Step? && name == steps[i].name && CalledWith(steps[i].params, steps[i].fn, finds, value)
        && Expansion.Result(traces[i]) == value
      case Sub(name, adapter, exports, inner) =>
        && steps[i].Include? && name == steps[i].name && CalledWith(steps[i].params, steps[i].fn, finds, adapter)
        && inner == EvalNested(resources, steps[i].pipeline.steps, SubEnv(steps[i].pipeline, adapter, resources))
        && Expansion.Result(traces[i]) == Latest(map[], Named(inner), steps[i].pipeline.exports)
  {
    EvalNestedAt(resources, steps, env, i);
    var traces := EvalNested(resources, steps, env);
    CallFinds(steps[i].params, steps[i].fn, env, Bindings(steps, traces)[..i]);
    if steps[i].Include? {
      BoundIsLatest(map[], Named(traces[i].inner), steps[i].pipeline.exports);
    }
  }

  // ---------------------------------------------------------------------------
  // Fields and resources
  // ---------------------------------------------------------------------------

  /** A sub-pipeline sees field f of the object it was given, its own resources, and nothing else. */
  lemma SubEnvIsExact(sub: Pipeline, adapter: Option<Value>, resources: Env, n: Name)
    ensures var env := SubEnv(sub, adapter, resources);
            var isField := n in sub.fields && adapter.Some? && adapter.value.Params? && n in adapter.value.fields;
      && (n in env <==> isField || (n in sub.resources && n in resources))
      && (n in env ==> env[n] == if isField then adapter.value.fields[n] else resources[n])
  {
  }

  /** A wrapped step gets for a field that field of the adapter's object, for a resource the resource,
      and for any other argument the value under its prefixed name; and it is called exactly if all of
      them are there. */
  lemma RemapIsExact(prefix: Name, sub: Pipeline, params: seq<Name>, kwargs: Env)
    ensures Remappable(prefix, sub, params, kwargs) <==>
            forall p | p in params ::
              if p in sub.fields then
                var given := prefix + "__adapter";
                given in kwargs && kwargs[given].Params? && p in kwargs[given].fields
              else if p in sub.resources then p in kwargs
              else prefix + "__" + p in kwargs
    ensures Remappable(prefix, sub, params, kwargs) ==>
            var remapped := RemapKwargs(prefix, sub, params, kwargs);
            && (forall p :: p in remapped <==> p in params)
            && forall p | p in params ::
                 if p in sub.fields then kwargs[prefix + "__adapter"].fields[p] == remapped[p]
                 else if p in sub.resources then kwargs[p] == remapped[p]
                 else kwargs[prefix + "__" + p] == remapped[p]
  {
    forall p | p in params
      ensures Argument(prefix, sub, kwargs, p) ==
              if p in sub.fields then
                var given := prefix + "__adapter";
                if given in kwargs && kwargs[given].Params? && p in kwargs[given].fields
                then Some(kwargs[given].fields[p]) else None
              else
                var source := if p in sub.resources then p else prefix + "__" + p;
                if source in kwargs then Some(kwargs[source]) else None
    {
      assert prefix + "__" + ADAPTER == prefix + "__adapter";
    }
  }
}
