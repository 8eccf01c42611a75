/** The run-graph scheduler of the sync engine: a step is submitted as soon as its inputs have been
    produced, and a future that is already done runs its completion callback inside the submission,
    in the middle of the loop that is submitting. */
module Scheduler {
  import opened Wrappers

  type Name = string
  type Key = string

  // ---------------------------------------------------------------------------
  // What a run is about
  // ---------------------------------------------------------------------------

  /** The steps of a run with everything the scheduler cannot influence: the keys each step stores,
      the steps whose future carries an exception, and the steps that are done before their callback
      is attached.  A hidden step, a step without a function and a step that swallowed its own error
      store nothing. */
  datatype Plan = Plan(steps: seq<Name>, deps: Name -> seq<Name>, resources: set<Name>,
                       params: set<Key>, stores: Name -> set<Key>, fails: map<Name, string>,
                       instant: set<Name>)
  {
    function Steps(): set<Name> {
      set s | s in steps
    }

    function ConsumersOf(producer: Name): set<Name> {
      set s | s in steps && producer in deps(s)
    }

    function OutputKey(producer: Name, consumer: Name): Key {
      if |ConsumersOf(producer)| > 1 then producer + "__" + consumer else producer
    }

    predicate Provided(dep: Name, s: Name, outputs: set<Key>) {
      dep in resources || OutputKey(dep, s) in outputs || dep in outputs
    }

    predicate Available(s: Name, outputs: set<Key>)
    {
      forall dep | dep in deps(s) :: Provided(dep, s, outputs)
    }

    /** The keys stored by a group of steps. */
    function StoredBy(group: set<Name>): set<Key> {
      set s, k | s in group && k in stores(s) :: k
    }

    function Produced(group: set<Name>): set<Key> {
      params + StoredBy(group)
    }
  }

  function SetOf<T>(xs: seq<T>): set<T> {
    set x | x in xs
  }

  lemma SetOfPush<T>(xs: seq<T>, x: T)
    ensures SetOf(xs + [x]) == SetOf(xs) + {x}
  {
  }

  lemma MoreIsAvailable(p: Plan, s: Name, few: set<Key>, many: set<Key>)
    requires few <= many && p.Available(s, few)
    ensures p.Available(s, many)
  {
    forall dep | dep in p.deps(s) ensures p.Provided(dep, s, many) {
      assert p.Provided(dep, s, few);
    }
  }

  // ---------------------------------------------------------------------------
  // The least fixpoint of readiness
  // ---------------------------------------------------------------------------

  /** Nothing outside the group could start on what the group has stored. */
  ghost predicate Settled(p: Plan, group: set<Name>)
  {
    forall s {:trigger p.Available(s, p.Produced(group))} ::
      s in p.steps && p.Available(s, p.Produced(group)) ==> s in group
  }

  /** Every step comes once and could start on what the steps before it store. */
  ghost predicate Grounded(p: Plan, order: seq<Name>)
  {
    order == [] || (Grounded(p, order[..|order| - 1]) && CanFollow(p, order[..|order| - 1], order[|order| - 1]))
  }

  ghost predicate CanFollow(p: Plan, before: seq<Name>, s: Name)
  {
    s in p.steps && s !in before && p.Available(s, p.Produced(SetOf(before)))
  }

  function Fixpoint(p: Plan, group: set<Name>): (r: set<Name>)
    requires group <= p.Steps()
    ensures group <= r <= p.Steps()
    decreases p.Steps() - group
  {
    var more := (set s | s in p.steps && s !in group && p.Available(s, p.Produced(group)));
    if more == {} then group
    else
      assert exists s :: s in more;
      Fixpoint(p, group + more)
  }

  lemma {:induction false} FixpointIsSettled(p: Plan, group: set<Name>)
    requires group <= p.Steps()
    ensures Settled(p, Fixpoint(p, group))
    decreases p.Steps() - group
  {
    var more := (set s | s in p.steps && s !in group && p.Available(s, p.Produced(group)));
    if more != {} {
      assert exists s :: s in more;
      FixpointIsSettled(p, group + more);
    } else {
      forall s | s in p.steps && p.Available(s, p.Produced(group)) ensures s in group || s in more {
      }
    }
  }

  lemma {:induction false} FixpointIsLeast(p: Plan, group: set<Name>, settled: set<Name>)
    requires group <= p.Steps() && group <= settled && Settled(p, settled)
    ensures Fixpoint(p, group) <= settled
    decreases p.Steps() - group
  {
    var more := (set s | s in p.steps && s !in group && p.Available(s, p.Produced(group)));
    forall s | s in more ensures s in settled {
      MoreIsAvailable(p, s, p.Produced(group), p.Produced(settled));
    }
    if more != {} {
      assert exists s :: s in more;
      FixpointIsLeast(p, group + more, settled);
    }
  }

  lemma {:induction false} GroundedStaysInside(p: Plan, order: seq<Name>, settled: set<Name>)
    requires Grounded(p, order) && Settled(p, settled)
    ensures SetOf(order) <= settled
  {
    if order != [] {
      var last := |order| - 1;
      GroundedStaysInside(p, order[..last], settled);
      MoreIsAvailable(p, order[last], p.Produced(SetOf(order[..last])), p.Produced(settled));
      assert order == order[..last] + [order[last]];
    }
  }

  /** Whatever order the steps were submitted in, if each could start when it was submitted and
      nothing more can start at the end, the same steps were submitted. */
  lemma Confluent(p: Plan, order: seq<Name>)
    requires Grounded(p, order) && Settled(p, SetOf(order))
    ensures SetOf(order) == Fixpoint(p, {})
  {
    FixpointIsSettled(p, {});
    GroundedStaysInside(p, order, Fixpoint(p, {}));
    FixpointIsLeast(p, {}, SetOf(order));
  }

  /** A dependency is served when it is a resource, a parameter, or an earlier step that stores the
      key its consumer reads. */
  ghost predicate Served(p: Plan, rank: map<Name, nat>, s: Name, dep: Name)
    requires s in rank
  {
    || dep in p.resources || dep in p.params
    || (dep in p.steps && dep in rank && rank[dep] < rank[s]
        && (p.OutputKey(dep, s) in p.stores(dep) || dep in p.stores(dep)))
  }

  ghost predicate AllServed(p: Plan, rank: map<Name, nat>)
  {
    && (forall s | s in p.steps :: s in rank)
    && forall s, dep | s in p.steps && dep in p.deps(s) :: Served(p, rank, s, dep)
  }

  lemma {:induction false} ServedStepRuns(p: Plan, rank: map<Name, nat>, settled: set<Name>, s: Name)
    requires AllServed(p, rank) && Settled(p, settled) && s in p.steps
    ensures s in settled
    decreases rank[s]
  {
    forall dep | dep in p.deps(s) ensures p.Provided(dep, s, p.Produced(settled)) {
      assert Served(p, rank, s, dep);
      if dep !in p.resources && dep !in p.params {
        ServedStepRuns(p, rank, settled, dep);
      }
    }
    assert p.Available(s, p.Produced(settled));
  }

  /** Every step runs when no step waits for a step that stores nothing for it. */
  lemma EveryStepRuns(p: Plan, rank: map<Name, nat>)
    requires AllServed(p, rank)
    ensures Fixpoint(p, {}) == p.Steps()
  {
    FixpointIsSettled(p, {});
    forall s | s in p.steps ensures s in Fixpoint(p, {}) {
      ServedStepRuns(p, rank, Fixpoint(p, {}), s);
    }
  }

  /** What publishing stores: one key per consumer for materialised and fanned-out streams, the step's
      own name otherwise. */
  function PublishedKeys(p: Plan, s: Name, perConsumer: bool): set<Key> {
    if perConsumer then set c | c in p.ConsumersOf(s) :: p.OutputKey(s, c) else {s}
  }

  lemma TwoOf(names: set<Name>) returns (a: Name, b: Name)
    requires |names| > 1
    ensures a in names && b in names && a != b
  {
    a :| a in names;
    assert |names - {a}| == |names| - 1;
    b :| b in names - {a};
  }

  /** A producer that several steps depend on is read under a key of its own by each of them. */
  lemma OutputKeyIsExact(p: Plan, producer: Name, consumer: Name)
    ensures p.OutputKey(producer, consumer) ==
            if exists a, b | a in p.steps && b in p.steps :: a != b && producer in p.deps(a) && producer in p.deps(b)
            then producer + "__" + consumer else producer
  {
    var consumers := p.ConsumersOf(producer);
    if a, b :| a in p.steps && b in p.steps && a != b && producer in p.deps(a) && producer in p.deps(b) {
      SubsetCount({a, b}, consumers);
    } else if |consumers| > 1 {
      var a, b := TwoOf(consumers);
    }
  }

  predicate IsHidden(n: Name) {
    n != "" && n[0] == '_'
  }

  function HiddenSteps(p: Plan): set<Name> {
    set n | n in p.steps && IsHidden(n)
  }

  /** The silent steps store nothing: hidden steps, steps without a function, and steps that swallowed
      their own error under CONTINUE.  All others store what they publish. */
  ghost predicate Publishes(p: Plan, silent: set<Name>, perConsumer: Name -> bool) {
    forall n | n in p.steps ::
      n != "" && p.stores(n) == if n in silent then {} else PublishedKeys(p, n, perConsumer(n))
  }

  /** A fanned-out or materialised output is stored for every consumer under a key that no other consumer of
      it reads, and not under the step's own name unless that is the key of its only consumer; any other
      output is stored under the step's own name, which all consumers read. */
  lemma EveryConsumerHasItsKey(p: Plan, silent: set<Name>, perConsumer: Name -> bool, s: Name, c: Name, other: Name)
    requires Publishes(p, silent, perConsumer) && s in p.steps && s !in silent
    requires c in p.steps && other in p.steps && s in p.deps(c) && s in p.deps(other)
    ensures p.Provided(s, c, p.stores(s))
    ensures perConsumer(s) ==> p.OutputKey(s, c) in p.stores(s) && (c != other ==> p.OutputKey(s, c) != p.OutputKey(s, other))
    ensures perConsumer(s) && c != other ==> s !in p.stores(s)
    ensures !perConsumer(s) ==> p.stores(s) == {s}
  {
    var consumers := p.ConsumersOf(s);
    if c != other {
      SubsetCount({c, other}, consumers);
      KeysDiffer(s, c, other);
      forall k | k in PublishedKeys(p, s, true) ensures k != s {
        var d :| d in consumers && k == p.OutputKey(s, d);
        assert |s + "__" + d| > |s|;
      }
    }
  }

  lemma KeysDiffer(s: Name, c: Name, other: Name)
    requires c != other
    ensures s + "__" + c != s + "__" + other
  {
    var prefix := s + "__";
    assert (prefix + c)[|prefix|..] == c && (prefix + other)[|prefix|..] == other;
  }

  /** No step stores a key under which a silent step is read. */
  ghost predicate SilentKeysApart(p: Plan, silent: set<Name>) {
    forall q, s, dep | q in p.steps && s in p.steps && dep in p.deps(s) && dep in silent ::
      dep !in p.stores(q) && p.OutputKey(dep, s) !in p.stores(q)
  }

  /** Dependencies are parameters, resources or earlier steps. */
  ghost predicate Layered(p: Plan, rank: map<Name, nat>) {
    && (forall s | s in p.steps :: s in rank)
    && forall s, dep | s in p.steps && dep in p.deps(s) && !p.Provided(dep, s, p.params) ::
         dep in p.steps && rank[dep] < rank[s]
  }

  /** Every published key begins like its producer: if only hidden steps are silent, no key begins with
      an underscore. */
  lemma HiddenKeysAreApart(p: Plan, perConsumer: Name -> bool)
    requires Publishes(p, HiddenSteps(p), perConsumer)
    ensures SilentKeysApart(p, HiddenSteps(p))
  {
    forall q, k | q in p.steps && k in p.stores(q) ensures !IsHidden(k) {
      assert q !in HiddenSteps(p) && k in PublishedKeys(p, q, perConsumer(q));
    }
    forall s, dep | s in p.steps && dep in p.deps(s) && dep in HiddenSteps(p) ensures IsHidden(p.OutputKey(dep, s)) {
      assert IsHidden(dep);
    }
  }

  lemma SilentIsNotProvided(p: Plan, silent: set<Name>, group: set<Name>, s: Name, dep: Name)
    requires SilentKeysApart(p, silent) && group <= p.Steps() && s in p.steps && dep in p.deps(s) && dep in silent
    requires !p.Provided(dep, s, p.params)
    ensures !p.Provided(dep, s, p.Produced(group))
  {
    forall q | q in group ensures q in p.steps {
      assert q in p.Steps();
    }
  }

  lemma {:induction false} FixpointIsAvailable(p: Plan, group: set<Name>, s: Name)
    requires group <= p.Steps() && s in Fixpoint(p, group) && s !in group
    ensures p.Available(s, p.Produced(Fixpoint(p, group)))
    decreases p.Steps() - group
  {
    var more := (set s | s in p.steps && s !in group && p.Available(s, p.Produced(group)));
    if s in more {
      MoreIsAvailable(p, s, p.Produced(group), p.Produced(Fixpoint(p, group)));
    } else {
      assert more != {};
      assert exists s :: s in more;
      FixpointIsAvailable(p, group + more, s);
    }
  }

  lemma PublishedIsProvided(p: Plan, silent: set<Name>, perConsumer: Name -> bool, group: set<Name>, s: Name, dep: Name)
    requires Publishes(p, silent, perConsumer) && s in p.steps && dep in p.deps(s)
    requires dep in group && dep in p.steps && dep !in silent
    ensures p.Provided(dep, s, p.Produced(group))
  {
    assert s in p.ConsumersOf(dep);
    assert p.OutputKey(dep, s) in p.stores(dep) || dep in p.stores(dep);
  }

  /** A step that depends on a silent step, directly or through others. */
  ghost predicate Starved(p: Plan, rank: map<Name, nat>, silent: set<Name>, s: Name)
    requires s in rank
    decreases rank[s]
  {
    exists dep | dep in p.deps(s) && !p.Provided(dep, s, p.params) ::
      dep in silent || (dep in rank && rank[dep] < rank[s] && Starved(p, rank, silent, dep))
  }

  lemma {:induction false} FedStepRuns(p: Plan, rank: map<Name, nat>, silent: set<Name>, perConsumer: Name -> bool,
                                       settled: set<Name>, s: Name)
    requires Publishes(p, silent, perConsumer) && Layered(p, rank) && Settled(p, settled) && s in p.steps
    requires !Starved(p, rank, silent, s)
    ensures s in settled
    decreases rank[s]
  {
    forall dep | dep in p.deps(s) ensures p.Provided(dep, s, p.Produced(settled)) {
      if !p.Provided(dep, s, p.params) {
        FedStepRuns(p, rank, silent, perConsumer, settled, dep);
        PublishedIsProvided(p, silent, perConsumer, settled, s, dep);
      }
    }
    assert p.Available(s, p.Produced(settled));
  }

  ghost predicate DependsOnSilent(p: Plan, silent: set<Name>) {
    exists s, dep | s in p.steps && dep in p.deps(s) :: dep in silent && !p.Provided(dep, s, p.params)
  }

  lemma {:induction false} StarvedMeansSilent(p: Plan, rank: map<Name, nat>, silent: set<Name>, s: Name)
    requires Layered(p, rank) && s in p.steps && Starved(p, rank, silent, s)
    ensures DependsOnSilent(p, silent)
    decreases rank[s]
  {
    var dep :| dep in p.deps(s) && !p.Provided(dep, s, p.params)
               && (dep in silent || (dep in rank && rank[dep] < rank[s] && Starved(p, rank, silent, dep)));
    if dep !in silent { StarvedMeansSilent(p, rank, silent, dep); }
  }

  /** Every step runs if and only if no step depends on a silent step. */
  lemma EveryStepRunsExactly(p: Plan, rank: map<Name, nat>, silent: set<Name>, perConsumer: Name -> bool)
    requires Publishes(p, silent, perConsumer) && Layered(p, rank) && SilentKeysApart(p, silent)
    ensures Fixpoint(p, {}) == p.Steps() <==> !DependsOnSilent(p, silent)
  {
    FixpointIsSettled(p, {});
    if DependsOnSilent(p, silent) {
      var s, dep :| s in p.steps && dep in p.deps(s) && dep in silent && !p.Provided(dep, s, p.params);
      SilentIsNotProvided(p, silent, Fixpoint(p, {}), s, dep);
      if s in Fixpoint(p, {}) { FixpointIsAvailable(p, {}, s); }
      assert s in p.Steps() && s !in Fixpoint(p, {});
    } else {
      forall s | s in p.steps ensures s in Fixpoint(p, {}) {
        if Starved(p, rank, silent, s) { StarvedMeansSilent(p, rank, silent, s); }
        FedStepRuns(p, rank, silent, perConsumer, Fixpoint(p, {}), s);
      }
    }
  }

  /** The case that only hidden steps are silent, which needs no assumption about keys. */
  lemma EveryStepRunsUnlessHidden(p: Plan, rank: map<Name, nat>, perConsumer: Name -> bool)
    requires Publishes(p, HiddenSteps(p), perConsumer) && Layered(p, rank)
    ensures Fixpoint(p, {}) == p.Steps()
       <==> forall s, dep | s in p.steps && dep in p.deps(s) :: p.Provided(dep, s, p.params) || !IsHidden(dep)
  {
    var silent := HiddenSteps(p);
    HiddenKeysAreApart(p, perConsumer);
    EveryStepRunsExactly(p, rank, silent, perConsumer);
    forall s, dep | s in p.steps && dep in p.deps(s) && !p.Provided(dep, s, p.params) && IsHidden(dep)
      ensures dep in silent
    {
    }
  }

  /** No step stores a key under which another one is read. */
  ghost predicate KeysApart(p: Plan) {
    forall q, s, dep | q in p.steps && s in p.steps && dep in p.deps(s)
                       && (p.OutputKey(dep, s) in p.stores(q) || dep in p.stores(q)) :: q == dep
  }

  /** With keys apart, what a step needs from another one comes from that step itself. */
  lemma OnlyItsOwnKey(p: Plan, group: set<Name>, s: Name, dep: Name)
    requires KeysApart(p) && group <= p.Steps() && s in p.steps && dep in p.deps(s)
    requires p.Provided(dep, s, p.Produced(group)) && !p.Provided(dep, s, p.params)
    ensures dep in group && p.stores(dep) != {}
  {
    var q :| q in group && (p.OutputKey(dep, s) in p.stores(q) || dep in p.stores(q));
    assert q in p.Steps();
  }

  lemma {:induction false} StarvedStepWaits(p: Plan, rank: map<Name, nat>, silent: set<Name>,
                                            perConsumer: Name -> bool, s: Name)
    requires Publishes(p, silent, perConsumer) && Layered(p, rank) && KeysApart(p) && s in p.steps
    requires Starved(p, rank, silent, s)
    ensures s !in Fixpoint(p, {})
    decreases rank[s]
  {
    var dep :| dep in p.deps(s) && !p.Provided(dep, s, p.params)
               && (dep in silent || (dep in rank && rank[dep] < rank[s] && Starved(p, rank, silent, dep)));
    if dep !in silent { StarvedStepWaits(p, rank, silent, perConsumer, dep); }
    if s in Fixpoint(p, {}) {
      FixpointIsAvailable(p, {}, s);
      OnlyItsOwnKey(p, Fixpoint(p, {}), s, dep);
    }
  }

  /** Which steps run: exactly those that do not depend on a silent step, through any number of others. */
  lemma StepRunsExactly(p: Plan, rank: map<Name, nat>, silent: set<Name>, perConsumer: Name -> bool, s: Name)
    requires Publishes(p, silent, perConsumer) && Layered(p, rank) && KeysApart(p) && s in p.steps
    ensures s in Fixpoint(p, {}) <==> !Starved(p, rank, silent, s)
  {
    FixpointIsSettled(p, {});
    if Starved(p, rank, silent, s) {
      StarvedStepWaits(p, rank, silent, perConsumer, s);
    } else {
      FedStepRuns(p, rank, silent, perConsumer, Fixpoint(p, {}), s);
    }
  }

  /** Whatever steps store: a step with a dependency that no parameter and no step provides never runs. */
  lemma UnservedStepNeverRuns(p: Plan, s: Name, dep: Name)
    requires dep in p.deps(s) && dep !in p.resources
    requires dep !in p.Produced(p.Steps()) && p.OutputKey(dep, s) !in p.Produced(p.Steps())
    ensures s !in Fixpoint(p, {})
  {
    if s in Fixpoint(p, {}) {
      FixpointIsAvailable(p, {}, s);
    }
  }

  /** A producer that stores nothing and its consumer, without failures. */
  function SilentProducer(producer: Name): Plan {
    Plan([producer, "c"], s => if s == "c" then [producer] else [], {}, {}, s => if s == "c" then {"c"} else {},
         map[], {})
  }

  lemma SilentProducerKeys(producer: Name)
    requires producer !in ["", "c"]
    ensures SilentProducer(producer).ConsumersOf(producer) == {"c"}
    ensures SilentProducer(producer).OutputKey(producer, "c") == producer
  {
    var p := SilentProducer(producer);
    assert p.steps[1] == "c";
    assert p.ConsumersOf(producer) == {"c"};
  }

  /** The producer itself runs. */
  lemma SilentProducerRuns(producer: Name)
    requires producer !in ["", "c"]
    ensures producer in Fixpoint(SilentProducer(producer), {})
  {
    var p := SilentProducer(producer);
    FixpointIsSettled(p, {});
    assert p.steps[0] == producer && p.deps(producer) == [];
    assert p.Available(producer, p.Produced(Fixpoint(p, {})));
  }

  /** The consumer never runs, whether the producer is hidden, such as "_h", or a visible step that
      swallowed its error, such as "p". */
  lemma SilentProducerStarves(producer: Name)
    requires producer !in ["", "c"]
    ensures var p := SilentProducer(producer);
            p.fails == map[] && "c" in p.steps && "c" !in Fixpoint(p, {}) && producer in Fixpoint(p, {})
  {
    var p := SilentProducer(producer);
    assert p.steps[1] == "c" && producer in p.deps("c");
    SilentProducerKeys(producer);
    UnservedStepNeverRuns(p, "c", producer);
    SilentProducerRuns(producer);
  }

  // ---------------------------------------------------------------------------
  // The scheduler
  // ---------------------------------------------------------------------------

  lemma {:induction false} AtMostLength<T>(xs: seq<T>)
    ensures |SetOf(xs)| <= |xs|
  {
    if xs != [] {
      var last := |xs| - 1;
      AtMostLength(xs[..last]);
      assert xs == xs[..last] + [xs[last]];
      SetOfPush(xs[..last], xs[last]);
    } else {
      assert SetOf(xs) == {};
    }
  }

  /** The scheduler's variables, with the order of submissions and what was submitted and ready when
      the first failure was reported. */
  datatype Board = Board(outputs: set<Key>, ready: set<Name>, running: set<Name>, finished: set<Name>,
                         fatalError: Option<string>, completedCleanly: bool, submitted: seq<Name>,
                         atFailure: nat, leftover: set<Name>, culprit: Name)
  {
    ghost predicate Tasks(p: Plan) {
      && ready + running + finished <= p.Steps()
      && ready !! running && ready !! finished && running !! finished
      && SetOf(submitted) == running + finished
    }

    ghost predicate Inputs(p: Plan)
      requires Tasks(p)
    {
      && p.params <= outputs <= p.Produced(running + finished)
      && Grounded(p, submitted)
      && (forall s {:trigger p.Available(s, outputs)} | s in ready :: p.Available(s, outputs))
      && forall s {:trigger p.stores(s)} | s in finished && s !in p.fails.Keys :: p.stores(s) <= outputs
    }

    ghost predicate Failure(p: Plan) {
      && (completedCleanly <==> fatalError.None?)
      && (completedCleanly <==> finished !! p.fails.Keys)
      && (!completedCleanly ==>
            && culprit in finished && culprit in p.fails && fatalError == Some(p.fails[culprit])
            && atFailure <= |submitted| && culprit in submitted[..atFailure]
            && (culprit !in p.instant ==> leftover == {})
            && (forall s | s in submitted[..atFailure] && s in p.instant && s in p.fails :: s == culprit)
            && SetOf(submitted[atFailure..]) + ready == leftover
            && SetOf(submitted[atFailure..]) !! ready)
    }

    /** The invariant of the scheduler.  It is kept closed: a proof that only hands it on does not
        look inside, a proof that needs a part of it says `OpenSound`. */
    ghost predicate Sound(p: Plan) {
      forall k: nat {:trigger Opened(k)} :: Opened(k) ==> SoundParts(p)
    }

    ghost predicate SoundParts(p: Plan) {
      Tasks(p) && Inputs(p) && Failure(p)
    }

    /** Everything that can start on what the finished steps stored has been taken up. */
    ghost predicate Scanned(p: Plan)
    {
      forall s {:trigger p.Available(s, p.Produced(finished))} ::
        s in p.steps && p.Available(s, p.Produced(finished)) ==> s in Taken()
    }

    ghost predicate StartedBy(p: Plan, later: Board) {
      forall s {:trigger p.Available(s, p.Produced(finished))} ::
        s in p.steps && p.Available(s, p.Produced(finished)) ==> s in later.Taken()
    }

    ghost function Taken(): set<Name> {
      ready + running + finished
    }

    ghost function Room(p: Plan): nat {
      if |submitted| < |p.steps| then |p.steps| - |submitted| else 0
    }

    ghost function Publish(keys: set<Key>): Board {
      this.(outputs := outputs + keys)
    }

    ghost function Take(s: Name): Board {
      this.(ready := ready + {s})
    }

    ghost function Submit(s: Name): Board {
      this.(ready := ready - {s}, running := running + {s}, submitted := submitted + [s])
    }

    ghost function Finish(p: Plan, s: Name): Board {
      var b := this.(running := running - {s}, finished := finished + {s});
      if s !in p.fails then b
      else if fatalError.None? then
        b.(fatalError := Some(p.fails[s]), completedCleanly := false,
           atFailure := |submitted|, leftover := ready, culprit := s)
      else b.(completedCleanly := false)
    }
  }

  lemma OpenSound(p: Plan, b: Board)
    ensures b.Sound(p) <==> b.SoundParts(p)
  {
    assert Opened(0);
  }

  lemma PublishKeeps(p: Plan, b: Board, keys: set<Key>)
    requires b.Sound(p) && keys <= p.StoredBy(b.running)
    ensures b.Publish(keys).Sound(p) && (b.Scanned(p) ==> b.Publish(keys).Scanned(p))
  {
    OpenSound(p, b);
    OpenSound(p, b.Publish(keys));
    forall s | s in b.ready ensures p.Available(s, b.outputs + keys) {
      MoreIsAvailable(p, s, b.outputs, b.outputs + keys);
    }
    assert p.StoredBy(b.running) <= p.Produced(b.running + b.finished);
  }

  lemma TakeKeeps(p: Plan, b: Board, s: Name)
    requires b.Sound(p) && b.completedCleanly && s !in b.ready + b.running + b.finished
    requires s in p.steps && p.Available(s, b.outputs)
    ensures b.Take(s).Sound(p)
  {
    OpenSound(p, b);
    OpenSound(p, b.Take(s));
  }

  lemma TailPush<T>(xs: seq<T>, x: T, k: nat)
    requires k <= |xs|
    ensures (xs + [x])[..k] == xs[..k] && SetOf((xs + [x])[k..]) == SetOf(xs[k..]) + {x}
    ensures SetOf(xs[k..]) <= SetOf(xs)
  {
    assert (xs + [x])[k..] == xs[k..] + [x];
  }

  lemma SubmitKeepsFailure(p: Plan, b: Board, s: Name)
    requires b.Failure(p) && s in b.ready && s !in SetOf(b.submitted)
    ensures b.Submit(s).Failure(p)
  {
    if !b.completedCleanly {
      TailPush(b.submitted, s, b.atFailure);
      assert b.ready - {s} + {s} == b.ready;
    }
  }

  lemma ProducedGrows(p: Plan, few: set<Name>, many: set<Name>)
    requires few <= many
    ensures p.Produced(few) <= p.Produced(many)
  {
  }

  lemma {:induction false} GroundedOnce(p: Plan, order: seq<Name>)
    requires Grounded(p, order)
    ensures |SetOf(order)| == |order| && SetOf(order) <= p.Steps()
  {
    if order != [] {
      var init, last := order[..|order| - 1], order[|order| - 1];
      GroundedOnce(p, init);
      assert order == init + [last];
      SetOfPush(init, last);
    } else {
      assert SetOf(order) == {};
    }
  }

  lemma GroundedFits(p: Plan, order: seq<Name>)
    requires Grounded(p, order)
    ensures |order| <= |p.steps|
  {
    GroundedOnce(p, order);
    SubsetCount(SetOf(order), p.Steps());
    AtMostLength(p.steps);
    assert p.Steps() == SetOf(p.steps);
  }

  lemma SubmitKeepsInputs(p: Plan, b: Board, s: Name)
    requires b.Tasks(p) && b.Inputs(p) && s in b.ready && b.Submit(s).Tasks(p)
    ensures b.Submit(s).Inputs(p)
  {
    MoreIsAvailable(p, s, b.outputs, p.Produced(SetOf(b.submitted)));
    ProducedGrows(p, b.running + b.finished, b.running + {s} + b.finished);
  }

  lemma SubmitKeeps(p: Plan, b: Board, s: Name)
    requires b.Sound(p) && s in b.ready
    ensures b.Submit(s).Sound(p) && b.Submit(s).Room(p) < b.Room(p)
  {
    OpenSound(p, b);
    OpenSound(p, b.Submit(s));
    SubmitKeepsInputs(p, b, s);
    SubmitKeepsFailure(p, b, s);
    GroundedFits(p, b.Submit(s).submitted);
  }

  /** What a callback may assume: the step's outputs are there unless it failed, no other running
      step is already done, and a callback that is not re-entrant finds nothing ready. */
  ghost predicate MayFinish(p: Plan, b: Board, s: Name) {
    && s in b.running && (s !in p.fails ==> p.stores(s) <= b.outputs)
    && (b.running - {s}) !! p.instant
    && (s in p.instant || b.ready == {})
  }

  lemma FinishKeepsFailure(p: Plan, b: Board, s: Name)
    requires b.Tasks(p) && b.Failure(p) && MayFinish(p, b, s)
    ensures b.Finish(p, s).Failure(p)
  {
    if s in p.fails && b.completedCleanly {
      var after := b.Finish(p, s);
      assert after.submitted[after.atFailure..] == [];
      assert after.submitted[..after.atFailure] == b.submitted;
      assert s in SetOf(b.submitted);
      forall r | r in b.submitted && r in p.instant && r in p.fails ensures r == s {
        assert r in SetOf(b.submitted);
      }
    }
  }

  lemma FinishKeeps(p: Plan, b: Board, s: Name)
    requires b.Sound(p) && MayFinish(p, b, s)
    ensures b.Finish(p, s).Sound(p)
    ensures b.Finish(p, s).completedCleanly <==> b.completedCleanly && s !in p.fails
  {
    OpenSound(p, b);
    OpenSound(p, b.Finish(p, s));
    FinishKeepsFailure(p, b, s);
    assert b.Finish(p, s).running + b.Finish(p, s).finished == b.running + b.finished;
  }

  lemma SoundFacts(p: Plan, b: Board)
    requires b.Sound(p)
    ensures b.ready + b.running + b.finished <= p.Steps()
    ensures b.ready !! b.running && b.ready !! b.finished && b.running !! b.finished
    ensures b.completedCleanly ==> p.Produced(b.finished) <= b.outputs
    ensures b.completedCleanly <==> b.fatalError.None?
  {
    OpenSound(p, b);
  }

  /** What a run that is over amounts to. */
  lemma RunIsOver(p: Plan, b: Board)
    requires b.Sound(p) && b.ready == {}
    requires b.completedCleanly ==> b.running == {} && b.Scanned(p)
    ensures SetOf(b.submitted) <= Fixpoint(p, {})
    ensures SetOf(b.submitted) == b.running + b.finished
    ensures b.completedCleanly ==> b.finished == Fixpoint(p, {})
    ensures b.completedCleanly <==> Fixpoint(p, {}) !! p.fails.Keys
  {
    OpenSound(p, b);
    FixpointIsSettled(p, {});
    GroundedStaysInside(p, b.submitted, Fixpoint(p, {}));
    if b.completedCleanly {
      assert SetOf(b.submitted) == b.finished;
      Confluent(p, b.submitted);
    } else {
      assert b.culprit in SetOf(b.submitted);
    }
  }

  class RunGraph {
    const p: Plan
    var outputs: set<Key>
    var ready: set<Name>
    var running: set<Name>
    var finished: set<Name>
    var fatalError: Option<string>
    var completedCleanly: bool
    ghost var submitted: seq<Name>
    ghost var atFailure: nat
    ghost var leftover: set<Name>
    ghost var culprit: Name

    ghost function View(): Board
      reads this
    {
      Board(outputs, ready, running, finished, fatalError, completedCleanly, submitted, atFailure, leftover, culprit)
    }

    constructor (p: Plan)
      ensures this.p == p && View() == Board(p.params, {}, {}, {}, None, true, [], 0, {}, "")
    {
      this.p := p;
      outputs := p.params;
      ready, running, finished := {}, {}, {};
      fatalError, completedCleanly := None, true;
      submitted, atFailure, leftover, culprit := [], 0, {}, "";
    }

    /** Running steps store some of their outputs whenever they like. */
    method OthersPublish()
      requires View().Sound(p)
      modifies `outputs
      ensures View().Sound(p) && old(outputs) <= outputs
      ensures old(View().Scanned(p)) ==> View().Scanned(p)
    {
      var seen: set<Key> := *;
      var keys := seen * p.StoredBy(running);
      PublishKeeps(p, View(), keys);
      outputs := outputs + keys;
    }

    /** A running step reaches its end: its outputs are stored, unless it raises on the way. */
    method WorkerFinishes(s: Name)
      requires View().Sound(p) && s in running
      modifies `outputs
      ensures View().Sound(p) && old(outputs) <= outputs
      ensures s !in p.fails ==> p.stores(s) <= outputs
      ensures old(View().Scanned(p)) ==> View().Scanned(p)
    {
      OthersPublish();
      if s !in p.fails {
        SoundFacts(p, View());
        PublishKeeps(p, View(), p.stores(s));
        outputs := outputs + p.stores(s);
      }
    }

    method InputsAvailable(s: Name) returns (available: bool)
      requires s in p.steps
      ensures available == p.Available(s, outputs)
    {
      for i := 0 to |p.deps(s)|
        invariant forall j :: 0 <= j < i ==> p.Provided(p.deps(s)[j], s, outputs)
      {
        var dep := p.deps(s)[i];
        if dep in p.resources { continue; }
        var key := p.OutputKey(dep, s);
        if key !in outputs && dep !in outputs {
          assert !p.Provided(dep, s, outputs);
          return false;
        }
      }
      return true;
    }

    method FindReadySteps()
      requires View().Sound(p) && completedCleanly
      modifies `ready, `outputs
      ensures View().Sound(p) && View().Scanned(p) && old(ready) <= ready
    {
      ghost var base := p.Produced(finished);
      SoundFacts(p, View());
      for i := 0 to |p.steps|
        invariant View().Sound(p) && old(ready) <= ready && base <= outputs
        invariant forall j :: 0 <= j < i && p.Available(p.steps[j], base) ==>
                                p.steps[j] in ready + running + finished
      {
        var s := p.steps[i];
        OthersPublish();
        if s !in ready && s !in running && s !in finished {
          var available := InputsAvailable(s);
          if available {
            TakeKeeps(p, View(), s);
            ready := ready + {s};
          } else if p.Available(s, base) {
            MoreIsAvailable(p, s, base, outputs);
          }
        }
      }
    }

    /** `ready_tasks.pop()`, `running_tasks.add` and `pool.submit`. */
    method Submit() returns (s: Name)
      requires View().Sound(p) && ready != {}
      modifies `ready, `running, `submitted
      ensures View().Sound(p) && s in old(ready) && s in running
      ensures View() == old(View()).Submit(s)
      ensures View().Room(p) < old(View()).Room(p)
      ensures completedCleanly && old(View().Scanned(p)) ==> View().Scanned(p)
    {
      s :| s in ready;
      SubmitKeeps(p, View(), s);
      ready := ready - {s};
      running := running + {s};
      submitted := submitted + [s];
      assert View() == old(View()).Submit(s);
    }

    /** The submission loop, with the callback of a future that is already done, which comes back
        here. */
    method CheckNewReadySteps()
      requires View().Sound(p) && completedCleanly && running !! p.instant
      modifies this
      ensures View().Sound(p) && ready == {} && running !! p.instant
      ensures completedCleanly ==> View().Scanned(p)
      ensures |old(submitted)| <= |submitted| && old(finished) <= finished
      ensures old(View()).StartedBy(p, View()) && old(View().Taken()) <= View().Taken()
      decreases View().Room(p), 0
    {
      FindReadySteps();
      ghost var found := View().Taken();
      while ready != {}
        invariant View().Sound(p) && running !! p.instant
        invariant completedCleanly ==> View().Scanned(p)
        invariant |old(submitted)| <= |submitted| && old(finished) <= finished
        invariant found <= View().Taken()
        decreases View().Room(p)
      {
        var s := Submit();
        if s in p.instant {
          WorkerFinishes(s);
          StepDone(s);
        }
      }
    }

    method StepDone(s: Name)
      requires View().Sound(p) && MayFinish(p, View(), s)
      modifies this
      ensures View().Sound(p) && running !! p.instant && s in finished
      ensures completedCleanly ==> ready == {} && View().Scanned(p)
      ensures |old(submitted)| <= |submitted| && old(finished) <= finished
      ensures old(View().Taken()) <= View().Taken()
      ensures s in p.fails || !old(completedCleanly) ==>
                View() == old(View()).Finish(p, s) && !completedCleanly
                && ready == old(ready) && submitted == old(submitted)
      ensures s !in p.fails && old(completedCleanly) ==> ready == {}
      decreases View().Room(p), 1
    {
      Report(s);
      if completedCleanly {
        CheckNewReadySteps();
      }
    }

    /** The bookkeeping of a callback: only the first failure is kept. */
    method Report(s: Name)
      requires View().Sound(p) && MayFinish(p, View(), s)
      modifies this
      ensures View() == old(View()).Finish(p, s) && View().Sound(p)
      ensures completedCleanly <==> old(completedCleanly) && s !in p.fails
    {
      FinishKeeps(p, View(), s);
      running := running - {s};
      finished := finished + {s};
      if s in p.fails {
        if fatalError.None? {
          fatalError := Some(p.fails[s]);
          atFailure, leftover, culprit := |submitted|, ready, s;
        }
        completedCleanly := false;
      }
    }

    /** Some running step ends while the lock is free, and its callback runs. */
    method AwaitOne()
      requires View().Sound(p) && ready == {} && running !! p.instant && running != {} && completedCleanly
      requires View().Scanned(p)
      modifies this
      ensures View().Sound(p) && ready == {} && running !! p.instant
      ensures completedCleanly ==> View().Scanned(p)
      ensures completedCleanly <==> fatalError.None?
      ensures p.Steps() - finished < old(p.Steps() - finished)
      ensures old(View().Taken()) <= View().Taken()
    {
      var s :| s in running;
      SoundFacts(p, View());
      assert s in p.Steps() - finished;
      WorkerFinishes(s);
      StepDone(s);
      SoundFacts(p, View());
      assert s !in p.Steps() - finished;
    }

    /** The main loop: the lock is released between completions, so a completion that was not
        instant finds nothing ready.  The wait ends with the last running step or the first failure. */
    method Run() returns (raised: Option<string>)
      requires View() == Board(p.params, {}, {}, {}, None, true, [], 0, {}, "")
      modifies this
      ensures View().Sound(p) && ready == {} && raised == fatalError
      ensures raised.None? ==> running == {} && finished == Fixpoint(p, {})
      ensures raised.None? <==> Fixpoint(p, {}) !! p.fails.Keys
      ensures SetOf(submitted) <= Fixpoint(p, {})
      ensures forall s | s in p.steps && p.Available(s, p.params) :: s in submitted
    {
      CheckNewReadySteps();
      ghost var first := View().Taken();
      assert p.Produced({}) == p.params;
      while running != {} && fatalError.None?
        invariant View().Sound(p) && ready == {} && running !! p.instant
        invariant completedCleanly ==> View().Scanned(p)
        invariant first <= View().Taken()
        decreases p.Steps() - finished
      {
        SoundFacts(p, View());
        AwaitOne();
      }
      SoundFacts(p, View());
      RunIsOver(p, View());
      raised := fatalError;
      forall s | s in p.steps && p.Available(s, p.params) ensures s in submitted {
        assert s in first && s in SetOf(submitted);
      }
    }
  }

  // ---------------------------------------------------------------------------
  // What holds between any two steps of a run
  // ---------------------------------------------------------------------------

  lemma {:induction false} GroundedAt(p: Plan, order: seq<Name>, i: nat)
    requires Grounded(p, order) && i < |order|
    ensures CanFollow(p, order[..i], order[i])
  {
    var last := |order| - 1;
    if i < last {
      GroundedAt(p, order[..last], i);
      assert order[..last][..i] == order[..i];
    }
  }

  /** Every submission is the first one of its step and comes after all its inputs were stored by
      steps submitted earlier, and never more steps are outstanding than the pool has workers. */
  lemma SubmissionsAreSafe(p: Plan, b: Board, i: nat)
    requires b.Sound(p) && i < |b.submitted|
    ensures b.submitted[i] in p.steps && b.submitted[i] !in b.submitted[..i]
    ensures forall dep | dep in p.deps(b.submitted[i]) ::
              p.Provided(dep, b.submitted[i], p.Produced(SetOf(b.submitted[..i])))
    ensures |b.running| <= |b.submitted| <= |p.steps|
  {
    OpenSound(p, b);
    GroundedAt(p, b.submitted, i);
    GroundedFits(p, b.submitted);
    AtMostLength(b.submitted);
    SubsetCount(b.running, SetOf(b.submitted));
  }

  /** Once the submission loops are left, the steps submitted after the first failure are exactly
      those that were ready when it was reported.  That is none at all if nothing was ready, as
      after any failure reported while no submission loop is active. */
  lemma SubmittedAfterFailure(p: Plan, b: Board)
    requires b.Sound(p) && !b.completedCleanly && b.ready == {}
    ensures b.atFailure <= |b.submitted| && SetOf(b.submitted[b.atFailure..]) == b.leftover
    ensures |b.submitted| == b.atFailure <==> b.leftover == {}
    ensures b.culprit !in p.instant ==> |b.submitted| == b.atFailure
    ensures b.culprit in b.submitted[..b.atFailure] && b.culprit in p.fails
    ensures b.fatalError == Some(p.fails[b.culprit])
  {
    OpenSound(p, b);
    if b.atFailure < |b.submitted| {
      assert b.submitted[b.atFailure..][0] in SetOf(b.submitted[b.atFailure..]);
    }
  }

  /** If no step fails before its callback is attached, nothing is submitted after the first failure. */
  lemma NothingAfterFailure(p: Plan, b: Board)
    requires b.Sound(p) && !b.completedCleanly && b.ready == {} && p.instant !! p.fails.Keys
    ensures b.atFailure == |b.submitted|
  {
    SubmittedAfterFailure(p, b);
    assert b.culprit !in p.instant;
  }

  /** Two independent steps that fail before their callbacks are attached. */
  function TwoFailures(): Plan {
    Plan(["a", "b"], s => [], {}, {}, s => {}, map["a" := "broken a", "b" := "broken b"], {"a", "b"})
  }

  lemma OneLeft(b: Board)
    requires b.Sound(TwoFailures()) && !b.completedCleanly && b.ready == {}
    requires "a" in b.submitted && "b" in b.submitted
    ensures b.atFailure == 1 && |b.submitted| == 2
  {
    var p := TwoFailures();
    OpenSound(p, b);
    GroundedFits(p, b.submitted);
    forall s | s in b.submitted[..b.atFailure] ensures s == b.culprit {
      assert s in SetOf(b.submitted);
    }
    assert b.culprit in b.submitted[..b.atFailure] by { SubmittedAfterFailure(p, b); }
  }

  /** In every run of these two steps, one is submitted after the other's failure was reported. */
  method FailureDoesNotStopSubmission() returns (g: RunGraph, raised: Option<string>)
    ensures g.p == TwoFailures() && g.View().Sound(g.p) && raised.Some?
    ensures g.atFailure == 1 && |g.submitted| == 2
  {
    var p := TwoFailures();
    g := new RunGraph(p);
    raised := g.Run();
    assert p.Available("a", p.params) && p.Available("b", p.params);
    assert "a" in p.steps && "b" in p.steps by { assert p.steps[0] == "a" && p.steps[1] == "b"; }
    FixpointIsSettled(p, {});
    assert p.Available("a", p.Produced(Fixpoint(p, {})));
    SoundFacts(p, g.View());
    OneLeft(g.View());
  }
}
