/** What the builder and the engines find out about a step function: by inspection at build time, and by
    calling it.  The two do not always agree. */
module StepFunctions {

  // ---------------------------------------------------------------------------
  // Step functions
  // ---------------------------------------------------------------------------

  datatype Def = PlainDef | GeneratorDef | CoroutineDef | AsyncGeneratorDef

  /** A function, an object with a `__call__` of some kind, or the wrapper that expansion puts around a step
      of an included pipeline. */
  datatype Target = Plainly(def: Def) | Object(call: Def) | Wrapper(inner: Function)

  /** `bound` says that it is a `functools.partial` of its target; a partial of a partial is one partial. */
  datatype Function = NoFunction | Function(bound: bool, target: Target)

  predicate IsAsync(d: Def) {
    d == CoroutineDef || d == AsyncGeneratorDef
  }

  /** The flags that `inspect` reads off a function, below a partial.  An object has none, and the wrapper
      is a coroutine function only around a coroutine function. */
  function Inspected(target: Target): Def {
    match target
    case Plainly(def) => def
    case Object(_) => PlainDef
    case Wrapper(inner) =>
      if inner.Function? && Inspected(inner.target) == CoroutineDef then CoroutineDef else PlainDef
  }

  // ---------------------------------------------------------------------------
  // Inspection
  // ---------------------------------------------------------------------------

  /** `is_async_callable`: the function itself, the `__call__` of an object, the `func` of a partial. */
  predicate IsAsyncCallable(f: Function) {
    f.Function? &&
    (|| IsAsync(Inspected(f.target))
     || (!f.bound && f.target.Object? && IsAsync(f.target.call))
     || (f.bound && (IsAsync(Inspected(f.target)) || (f.target.Object? && IsAsync(f.target.call)))))
  }

  datatype FnKind = NoKind | AsyncGeneratorKind | AsyncKind | SyncGeneratorKind | SyncKind

  /** `_classify_fn_kind`, which looks at the function only. */
  function KindOf(f: Function): FnKind {
    if f == NoFunction then NoKind
    else if Inspected(f.target) == AsyncGeneratorDef then AsyncGeneratorKind
    else if Inspected(f.target) == CoroutineDef then AsyncKind
    else if Inspected(f.target) == GeneratorDef then SyncGeneratorKind
    else SyncKind
  }

  // ---------------------------------------------------------------------------
  // Calls
  // ---------------------------------------------------------------------------

  datatype Given = Value | Iterator | Awaitable | AsyncIterator

  function GivenBy(d: Def): Given {
    match d
    case PlainDef => Value
    case GeneratorDef => Iterator
    case CoroutineDef => Awaitable
    case AsyncGeneratorDef => AsyncIterator
  }

  /** What a call gives.  The plain wrapper hands on what the wrapped function gives. */
  function CallGives(target: Target): Given {
    match target
    case Plainly(def) => GivenBy(def)
    case Object(call) => GivenBy(call)
    case Wrapper(inner) =>
      if inner == NoFunction then Value
      else if Inspected(inner.target) == CoroutineDef then Awaitable
      else CallGives(inner.target)
  }

  datatype Engine = SyncEngine | AsyncEngine

  /** The sync engine calls the function and takes what it gives: nobody awaits a coroutine or iterates an
      async generator.  The async engine calls an async generator and awaits everything else. */
  predicate CallWorks(engine: Engine, f: Function)
    requires f.Function?
  {
    if engine == SyncEngine then CallGives(f.target) == Value || CallGives(f.target) == Iterator
    else if KindOf(f) == AsyncGeneratorKind then CallGives(f.target) == AsyncIterator
    else CallGives(f.target) == Awaitable
  }

  /** The two ways in which looks deceive: an object whose `__call__` is an async generator, and a wrapper
      around something async that is not a coroutine function. */
  predicate Deceives(f: Function) {
    f.Function? &&
    match f.target
    case Plainly(_) => false
    case Object(call) => call == AsyncGeneratorDef
    case Wrapper(inner) => inner.Function? && HidesAsync(inner.target)
  }

  predicate HidesAsync(target: Target) {
    Inspected(target) != CoroutineDef && (CallGives(target) == Awaitable || CallGives(target) == AsyncIterator)
  }

  /** A wrapper around something awaitable that does not look so. */
  predicate HidesAwaitable(f: Function) {
    f.Function? && f.target.Wrapper? && f.target.inner.Function?
    && Inspected(f.target.inner.target) != CoroutineDef && CallGives(f.target.inner.target) == Awaitable
  }

  lemma InspectedGives(target: Target)
    ensures IsAsync(Inspected(target)) ==> CallGives(target) == GivenBy(Inspected(target))
  {
  }

  /** For the engine that a function looks made for, its call works if and only if its looks do not
      deceive; a function that looks plain works in the async engine if and only if it hides an awaitable. */
  lemma LooksDecideExactly(f: Function)
    requires f.Function?
    ensures CallWorks(if IsAsyncCallable(f) then AsyncEngine else SyncEngine, f) <==> !Deceives(f)
    ensures !IsAsyncCallable(f) ==> (CallWorks(AsyncEngine, f) <==> HidesAwaitable(f))
  {
    InspectedGives(f.target);
  }

  /** For a function itself, or a partial of it, the kind tells exactly what a call gives. */
  lemma KindTells(bound: bool, def: Def)
    ensures var f := Function(bound, Plainly(def));
      && (KindOf(f) == SyncKind <==> CallGives(f.target) == Value)
      && (KindOf(f) == SyncGeneratorKind <==> CallGives(f.target) == Iterator)
      && (KindOf(f) == AsyncKind <==> CallGives(f.target) == Awaitable)
      && (KindOf(f) == AsyncGeneratorKind <==> CallGives(f.target) == AsyncIterator)
  {
  }

  // ---------------------------------------------------------------------------
  // Wrapping
  // ---------------------------------------------------------------------------

  /** `_wrap_sub_step_fn`, as far as kinds go. */
  function Wrapped(f: Function): Function {
    Function(false, Wrapper(f))
  }

  /** Including the pipeline of a step keeps its function's looks and where its call works if and only if
      the function is not async, or is a coroutine function. */
  lemma WrappingKeepsExactly(f: Function)
    requires f.Function?
    ensures (IsAsyncCallable(Wrapped(f)) == IsAsyncCallable(f)
             && forall e :: CallWorks(e, Wrapped(f)) == CallWorks(e, f))
       <==> !IsAsyncCallable(f) || Inspected(f.target) == CoroutineDef
  {
    InspectedGives(f.target);
    forall e | !IsAsyncCallable(f) || Inspected(f.target) == CoroutineDef
      ensures CallWorks(e, Wrapped(f)) == CallWorks(e, f)
    {
      match e
      case SyncEngine =>
      case AsyncEngine =>
    }
  }
}
