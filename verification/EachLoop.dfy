/** The loop of an EACH step, written once for each engine: one call per row of the inputs, short
    inputs padded with `None`, errors counted, and a threshold checked at the end. */
module EachLoop {
  import opened Wrappers

  type Error = string

  // ---------------------------------------------------------------------------
  // One job: inputs, function, policy
  // ---------------------------------------------------------------------------

  /** An input delivers its items and then ends or raises. */
  datatype Input<V> = Input(items: seq<V>, failure: Option<Error>)

  /** What one call does.  `Halted` is the pipeline's own stop exception. */
  datatype Outcome<V> = Returned(value: V) | Failed(error: Error) | Halted(error: Error)

  datatype OnError = Stop | Continue

  /** The k-th call may depend on k; `none` is the padding. */
  datatype Job<!V> = Job(inputs: seq<Input<V>>, call: (nat, seq<V>) -> Outcome<V>, onError: OnError,
                        absolute: Option<nat>, percentage: Option<real>, none: V)

  datatype Ending =
    | Finished
    | ThresholdExceeded
    | Stopped(cause: Error)
    | Halt(cause: Error)
    | InputFailed(cause: Error)

  /** Everything a loop does: the argument rows it calls with, what it yields, the counts it reports
      with each error, its final counts and how it ends. */
  datatype Trace<V> = Trace(calls: seq<seq<V>>, yielded: seq<V>, reports: seq<(nat, nat)>,
                            invocations: nat, errors: nat, ending: Ending)

  datatype Row<V> = Args(args: seq<V>) | Exhausted | Broken(error: Error)

  // ---------------------------------------------------------------------------
  // Rows
  // ---------------------------------------------------------------------------

  function At<V>(input: Input<V>, k: nat, none: V): V {
    if k < |input.items| then input.items[k] else none
  }

  function Padded<V>(inputs: seq<Input<V>>, k: nat, none: V): (row: seq<V>)
    ensures |row| == |inputs|
  {
    if inputs == [] then [] else Padded(inputs[..|inputs| - 1], k, none) + [At(inputs[|inputs| - 1], k, none)]
  }

  lemma {:induction false} PaddedAt<V>(inputs: seq<Input<V>>, k: nat, none: V, i: nat)
    requires i < |inputs|
    ensures Padded(inputs, k, none)[i] == if k < |inputs[i].items| then inputs[i].items[k] else none
  {
    if i < |inputs| - 1 {
      PaddedAt(inputs[..|inputs| - 1], k, none, i);
    }
  }

  /** The failure met when round k asks the inputs in order. */
  function FailureIn<V>(inputs: seq<Input<V>>, k: nat): Option<Error> {
    if inputs == [] then None
    else
      var earlier := FailureIn(inputs[..|inputs| - 1], k);
      var last := inputs[|inputs| - 1];
      if earlier.Some? then earlier
      else if k == |last.items| then last.failure
      else None
  }

  lemma {:induction false} FailureIsFirst<V>(inputs: seq<Input<V>>, k: nat, n: nat)
    requires n <= |inputs| && FailureIn(inputs[..n], k).Some?
    ensures FailureIn(inputs, k) == FailureIn(inputs[..n], k)
    decreases |inputs|
  {
    if n < |inputs| {
      var shorter := inputs[..|inputs| - 1];
      assert shorter[..n] == inputs[..n];
      FailureIsFirst(shorter, k, n);
    } else {
      assert inputs[..n] == inputs;
    }
  }

  lemma {:induction false} FailureAt<V>(inputs: seq<Input<V>>, k: nat, i: nat)
    requires i < |inputs| && FailureIn(inputs, k).None?
    ensures |inputs[i].items| == k ==> inputs[i].failure.None?
  {
    if i < |inputs| - 1 {
      FailureAt(inputs[..|inputs| - 1], k, i);
    }
  }

  /** The first of the inputs that fails when it is asked for its k-th item. */
  ghost predicate FailsFirst<V>(inputs: seq<Input<V>>, k: nat, i: nat, e: Error) {
    && i < |inputs| && |inputs[i].items| == k && inputs[i].failure == Some(e)
    && forall h :: 0 <= h < i ==> |inputs[h].items| == k ==> inputs[h].failure.None?
  }

  lemma {:induction false} FailureInIsFirst<V>(inputs: seq<Input<V>>, k: nat, e: Error)
    ensures FailureIn(inputs, k) == Some(e) <==> exists i: nat :: FailsFirst(inputs, k, i, e)
    ensures FailureIn(inputs, k).None? <==> forall i :: 0 <= i < |inputs| && |inputs[i].items| == k ==> inputs[i].failure.None?
  {
    if inputs != [] {
      var front, last := inputs[..|inputs| - 1], |inputs| - 1;
      FailureInIsFirst(front, k, e);
      assert forall h :: 0 <= h < last ==> front[h] == inputs[h];
      if FailureIn(front, k).Some? {
        FailureInIsFirst(front, k, FailureIn(front, k).value);
      }
      if i: nat :| FailsFirst(front, k, i, e) { assert FailsFirst(inputs, k, i, e); }
      if i: nat :| FailsFirst(inputs, k, i, e) {
        if i < last { assert FailsFirst(front, k, i, e); }
      }
      if FailureIn(front, k).None? && FailureIn(inputs, k) == Some(e) { assert FailsFirst(inputs, k, last, e); }
    }
  }

  /** No input has failed before round k. */
  ghost predicate FailuresAhead<V>(inputs: seq<Input<V>>, k: nat) {
    forall i :: 0 <= i < |inputs| && inputs[i].failure.Some? ==> k <= |inputs[i].items|
  }

  lemma StillAhead<V>(inputs: seq<Input<V>>, k: nat)
    requires FailuresAhead(inputs, k) && FailureIn(inputs, k).None?
    ensures FailuresAhead(inputs, k + 1)
  {
    forall i | 0 <= i < |inputs| && inputs[i].failure.Some? ensures k + 1 <= |inputs[i].items| {
      FailureAt(inputs, k, i);
    }
  }

  predicate AllDone<V>(inputs: seq<Input<V>>, k: nat) {
    forall i :: 0 <= i < |inputs| ==> |inputs[i].items| <= k
  }

  function RowOf<V>(inputs: seq<Input<V>>, k: nat, none: V): Row<V> {
    var failure := FailureIn(inputs, k);
    if failure.Some? then Broken(failure.value)
    else if AllDone(inputs, k) then Exhausted
    else Args(Padded(inputs, k, none))
  }

  function Longest<V>(inputs: seq<Input<V>>): (n: nat)
    ensures AllDone(inputs, n)
    ensures n == 0 || exists i :: 0 <= i < |inputs| && |inputs[i].items| == n
  {
    if inputs == [] then 0
    else
      var rest := Longest(inputs[..|inputs| - 1]);
      var last := |inputs[|inputs| - 1].items|;
      assert forall i :: 0 <= i < |inputs| - 1 ==> inputs[i] == inputs[..|inputs| - 1][i];
      if last > rest then last else rest
  }

  // ---------------------------------------------------------------------------
  // The specification
  // ---------------------------------------------------------------------------

  /** Whether `check_threshold` raises: only the final counts decide. */
  predicate Exceeds(absolute: Option<nat>, percentage: Option<real>, invocations: nat, errors: nat) {
    || (absolute.Some? && errors >= absolute.value)
    || (percentage.Some? && invocations > 0 && errors as real / invocations as real >= percentage.value)
  }

  function EndOf<V>(j: Job<V>, invocations: nat, errors: nat): Ending {
    if Exceeds(j.absolute, j.percentage, invocations, errors) then ThresholdExceeded else Finished
  }

  /** The rounds from round k on, after some errors. */
  function Rounds<V>(j: Job<V>, k: nat, errors: nat): (t: Trace<V>)
    requires errors <= k
    decreases Longest(j.inputs) - k
  {
    match RowOf(j.inputs, k, j.none)
    case Broken(e) => Trace([], [], [], k, errors, InputFailed(e))
    case Exhausted => Trace([], [], [], k, errors, EndOf(j, k, errors))
    case Args(args) =>
      assert k < Longest(j.inputs);
      match j.call(k, args)
      case Halted(e) => Trace([args], [], [], k + 1, errors, Halt(e))
      case Returned(v) =>
        var t := Rounds(j, k + 1, errors);
        t.(calls := [args] + t.calls, yielded := [v] + t.yielded)
      case Failed(e) =>
        var report := (k - errors, errors + 1);
        if j.onError.Stop? then Trace([args], [], [report], k + 1, errors + 1, Stopped(e))
        else
          var t := Rounds(j, k + 1, errors + 1);
          t.(calls := [args] + t.calls, reports := [report] + t.reports)
  }

  function Each<V>(j: Job<V>): Trace<V> {
    Rounds(j, 0, 0)
  }

  /** The variables of a loop between two rounds. */
  datatype Progress<V> = Progress(calls: seq<seq<V>>, yielded: seq<V>, reports: seq<(nat, nat)>,
                                  invocations: nat, errors: nat)
  {
    function End(ending: Ending): Trace<V> {
      Trace(calls, yielded, reports, invocations, errors, ending)
    }
  }

  /** What the whole run comes to, given what was done so far. */
  ghost function Whole<V>(j: Job<V>, p: Progress<V>): Trace<V>
    requires p.errors <= p.invocations
  {
    var t := Rounds(j, p.invocations, p.errors);
    t.(calls := p.calls + t.calls, yielded := p.yielded + t.yielded, reports := p.reports + t.reports)
  }

  /** The call on one row, its yield or its error. */
  method CallRow<V>(j: Job<V>, p: Progress<V>, args: seq<V>) returns (p': Progress<V>, ended: Option<Ending>)
    requires p.errors <= p.invocations && RowOf(j.inputs, p.invocations, j.none) == Args(args)
    ensures p'.errors <= p'.invocations == p.invocations + 1
    ensures ended.None? ==> Whole(j, p') == Whole(j, p)
    ensures ended.Some? ==> p'.End(ended.value) == Whole(j, p)
    ensures p.invocations < Longest(j.inputs)
  {
    assert p.invocations < Longest(j.inputs);
    ended := None;
    var invocations, errors := p.invocations + 1, p.errors;
    var calls, yielded, reports := p.calls + [args], p.yielded, p.reports;
    match j.call(p.invocations, args) {
      case Halted(e) =>
        ended := Some(Halt(e));
      case Returned(v) =>
        yielded := yielded + [v];
      case Failed(e) =>
        errors := errors + 1;
        reports := reports + [(invocations - errors, errors)];
        if j.onError.Stop? {
          ended := Some(Stopped(e));
        }
    }
    p' := Progress(calls, yielded, reports, invocations, errors);
    if ended.None? {
      var t := Rounds(j, invocations, errors);
      assert p.calls + ([args] + t.calls) == (p.calls + [args]) + t.calls;
      assert Whole(j, p).yielded == yielded + t.yielded;
      assert Whole(j, p).reports == reports + t.reports;
    }
  }

  // ---------------------------------------------------------------------------
  // The sync loop
  // ---------------------------------------------------------------------------

  ghost predicate PositionsAt<V>(inputs: seq<Input<V>>, position: seq<nat>, k: nat) {
    && |position| == |inputs|
    && forall i :: 0 <= i < |inputs| ==> position[i] == if k < |inputs[i].items| then k else |inputs[i].items|
  }

  /** What asking one more input adds to a row. */
  lemma ExtendRow<V>(inputs: seq<Input<V>>, k: nat, none: V, i: nat)
    requires i < |inputs| && FailureIn(inputs[..i], k).None?
    ensures Padded(inputs[..i + 1], k, none) == Padded(inputs[..i], k, none) + [At(inputs[i], k, none)]
    ensures FailureIn(inputs[..i + 1], k) == if k == |inputs[i].items| then inputs[i].failure else None
    ensures AllDone(inputs[..i + 1], k) <==> AllDone(inputs[..i], k) && |inputs[i].items| <= k
  {
    var upTo := inputs[..i + 1];
    assert upTo[..i] == inputs[..i] && upTo[i] == inputs[i];
    assert forall h :: 0 <= h < i ==> upTo[h] == inputs[..i][h];
  }

  /** Round k of the sync loop: `next(iterators[dep])` for each input in order.  An iterator that has
      ended stays ended. */
  method NextRow<V>(inputs: seq<Input<V>>, k: nat, none: V, position: seq<nat>)
    returns (row: Row<V>, position': seq<nat>)
    requires PositionsAt(inputs, position, k) && FailuresAhead(inputs, k)
    ensures row == RowOf(inputs, k, none)
    ensures row.Args? ==> PositionsAt(inputs, position', k + 1)
  {
    var args: seq<V>, exhausted := [], 0;
    position' := position;
    for i := 0 to |inputs|
      invariant |position'| == |inputs| && exhausted <= i && args == Padded(inputs[..i], k, none)
      invariant FailureIn(inputs[..i], k).None?
      invariant exhausted == i <==> AllDone(inputs[..i], k)
      invariant forall h :: 0 <= h < i ==>
                  position'[h] == if k + 1 < |inputs[h].items| then k + 1 else |inputs[h].items|
      invariant forall h :: i <= h < |inputs| ==> position'[h] == position[h]
    {
      ExtendRow(inputs, k, none, i);
      var at := position'[i];
      if at < |inputs[i].items| {
        args := args + [inputs[i].items[at]];
        position' := position'[i := at + 1];
      } else if inputs[i].failure.Some? {
        FailureIsFirst(inputs, k, i + 1);
        return Broken(inputs[i].failure.value), position';
      } else {
        args := args + [none];
        exhausted := exhausted + 1;
      }
    }
    assert inputs[..|inputs|] == inputs;
    row := if exhausted == |inputs| then Exhausted else Args(args);
  }

  method CheckThreshold(absolute: Option<nat>, percentage: Option<real>, invocations: nat, errors: nat)
    returns (raises: bool)
    ensures raises <==> Exceeds(absolute, percentage, invocations, errors)
  {
    if absolute.None? && percentage.None? { return false; }
    if absolute.Some? {
      if errors >= absolute.value { return true; }
    }
    if percentage.Some? {
      if invocations > 0 && errors as real / invocations as real >= percentage.value { return true; }
    }
    return false;
  }

  /** `_unroll_step.generate` of the sync engine, drained. */
  method GenerateSync<V>(j: Job<V>) returns (t: Trace<V>)
    ensures t == Each(j)
  {
    var p: Progress<V> := Progress([], [], [], 0, 0);
    var position: seq<nat> := seq(|j.inputs|, i => 0);
    while true
      invariant p.errors <= p.invocations
      invariant PositionsAt(j.inputs, position, p.invocations) && FailuresAhead(j.inputs, p.invocations)
      invariant Each(j) == Whole(j, p)
      decreases Longest(j.inputs) - p.invocations
    {
      var row;
      row, position := NextRow(j.inputs, p.invocations, j.none, position);
      match row {
        case Broken(e) =>
          return p.End(InputFailed(e));
        case Exhausted =>
          break;
        case Args(args) =>
          StillAhead(j.inputs, p.invocations);
          var ended;
          p, ended := CallRow(j, p, args);
          if ended.Some? { return p.End(ended.value); }
      }
    }
    var exceeded := CheckThreshold(j.absolute, j.percentage, p.invocations, p.errors);
    t := p.End(if exceeded then ThresholdExceeded else Finished);
  }

  // ---------------------------------------------------------------------------
  // The async loop
  // ---------------------------------------------------------------------------

  datatype QueueItem<V> = Value(value: V) | Raised(error: Error) | EndOfStream

  /** What the queue of an input delivers. */
  function Queued<V>(input: Input<V>): (q: seq<QueueItem<V>>)
    ensures |q| == |input.items| + (if input.failure.Some? then 2 else 1)
    ensures forall k :: 0 <= k < |input.items| ==> q[k] == Value(input.items[k])
    ensures q[|input.items|] == if input.failure.Some? then Raised(input.failure.value) else EndOfStream
  {
    seq(|input.items|, k requires 0 <= k < |input.items| => Value(input.items[k]))
    + (if input.failure.Some? then [Raised(input.failure.value)] else []) + [EndOfStream]
  }

  /** Loading a list into a queue of its own never waits for room. */
  method Preload<V>(items: seq<V>) returns (queue: seq<QueueItem<V>>)
    ensures queue == Queued(Input(items, None))
  {
    var capacity := (if |items| > 1 then |items| else 1) + 1;
    queue := [];
    for k := 0 to |items|
      invariant queue == Queued(Input(items, None))[..k]
    {
      assert |queue| < capacity;
      queue := queue + [Value(items[k])];
    }
    assert |queue| < capacity;
    queue := queue + [EndOfStream];
  }

  ghost predicate QueuesAt<V>(inputs: seq<Input<V>>, queues: seq<seq<QueueItem<V>>>, completed: set<nat>, k: nat) {
    && |queues| == |inputs|
    && (forall i | i in completed :: i < |inputs|)
    && forall i: nat {:trigger QueueAt(inputs, queues, completed, k, i)} ::
         i < |inputs| ==> QueueAt(inputs, queues, completed, k, i)
  }

  /** Before round k queue i holds what is left of its input, unless its end was met in a round before. */
  ghost predicate QueueAt<V>(inputs: seq<Input<V>>, queues: seq<seq<QueueItem<V>>>, completed: set<nat>, k: nat, i: nat)
    requires i < |inputs| == |queues|
  {
    && (i in completed <==> |inputs[i].items| < k)
    && (i !in completed ==> queues[i] == Queued(inputs[i])[k..])
  }

  lemma OthersKept<V>(inputs: seq<Input<V>>, queues: seq<seq<QueueItem<V>>>, completed: set<nat>, k: nat, i: nat,
                      queue: seq<QueueItem<V>>)
    requires i < |inputs| == |queues|
    requires forall h: nat {:trigger QueueAt(inputs, queues, completed, k, h)} ::
               h < i ==> QueueAt(inputs, queues, completed, k, h)
    ensures forall h: nat {:trigger QueueAt(inputs, queues[i := queue], completed, k, h)} ::
              h < i ==> QueueAt(inputs, queues[i := queue], completed, k, h)
    ensures forall h: nat {:trigger QueueAt(inputs, queues[i := queue], completed + {i}, k, h)} ::
              h < i ==> QueueAt(inputs, queues[i := queue], completed + {i}, k, h)
  {
    var popped, more := queues[i := queue], completed + {i};
    forall h: nat | h < i ensures QueueAt(inputs, popped, completed, k, h) {
      assert QueueAt(inputs, queues, completed, k, h);
    }
    forall h: nat | h < i ensures QueueAt(inputs, popped, more, k, h) {
      assert QueueAt(inputs, queues, completed, k, h);
    }
  }

  /** Round k of the async loop: one `get` on each queue that is not completed. */
  method GetRow<V>(inputs: seq<Input<V>>, k: nat, none: V, queues: seq<seq<QueueItem<V>>>, completed: set<nat>)
    returns (row: Row<V>, queues': seq<seq<QueueItem<V>>>, completed': set<nat>)
    requires QueuesAt(inputs, queues, completed, k) && FailuresAhead(inputs, k)
    ensures row == RowOf(inputs, k, none)
    ensures row.Args? ==> QueuesAt(inputs, queues', completed', k + 1)
  {
    var args: seq<V> := [];
    queues', completed' := queues, completed;
    for i := 0 to |inputs|
      invariant |queues'| == |inputs| && args == Padded(inputs[..i], k, none)
      invariant FailureIn(inputs[..i], k).None?
      invariant forall h | h in completed' :: h < |inputs|
      invariant forall h: nat {:trigger QueueAt(inputs, queues', completed', k + 1, h)} ::
                  h < i ==> QueueAt(inputs, queues', completed', k + 1, h)
      invariant forall h: nat :: i <= h < |inputs| ==>
                  queues'[h] == queues[h] && (h in completed' <==> h in completed)
    {
      ExtendRow(inputs, k, none, i);
      assert QueueAt(inputs, queues, completed, k, i);
      if i in completed' {
        args := args + [none];
        continue;
      }
      OthersKept(inputs, queues', completed', k + 1, i, queues'[i][1..]);
      var item := queues'[i][0];
      queues' := queues'[i := queues'[i][1..]];
      match item {
        case EndOfStream =>
          completed' := completed' + {i};
          args := args + [none];
        case Raised(e) =>
          FailureIsFirst(inputs, k, i + 1);
          return Broken(e), queues', completed';
        case Value(v) =>
          args := args + [v];
      }
    }
    assert inputs[..|inputs|] == inputs;
    CompletedCount(|inputs|, completed');
    assert |completed'| == |inputs| <==> AllDone(inputs, k) by {
      forall i | 0 <= i < |inputs| ensures i in completed' <==> |inputs[i].items| <= k {
        assert QueueAt(inputs, queues', completed', k + 1, i);
      }
    }
    row := if |completed'| == |inputs| then Exhausted else Args(args);
  }

  lemma {:induction false} CompletedCount(n: nat, completed: set<nat>)
    requires forall i | i in completed :: i < n
    ensures |completed| <= n
    ensures |completed| == n <==> forall i: nat | i < n :: i in completed
  {
    if n > 0 {
      var fewer := completed - {n - 1};
      CompletedCount(n - 1, fewer);
      if n - 1 in completed {
        assert forall i: nat | i < n - 1 :: i in fewer <==> i in completed;
      } else {
        assert fewer == completed;
      }
    }
  }

  lemma {:induction false} NothingLeft<V>(inputs: seq<Input<V>>, k: nat)
    requires FailuresAhead(inputs, k) && forall i :: 0 <= i < |inputs| ==> |inputs[i].items| < k
    ensures FailureIn(inputs, k).None? && AllDone(inputs, k)
  {
    if inputs != [] {
      NothingLeft(inputs[..|inputs| - 1], k);
    }
  }

  /** With every queue completed there is no row left. */
  lemma NothingToGet<V>(inputs: seq<Input<V>>, k: nat, none: V, queues: seq<seq<QueueItem<V>>>, completed: set<nat>)
    requires QueuesAt(inputs, queues, completed, k) && FailuresAhead(inputs, k)
    requires |completed| >= |inputs|
    ensures RowOf(inputs, k, none) == Exhausted
  {
    CompletedCount(|inputs|, completed);
    forall i | 0 <= i < |inputs| ensures |inputs[i].items| < k {
      assert QueueAt(inputs, queues, completed, k, i);
    }
    NothingLeft(inputs, k);
  }

  /** `_unroll_step.generate` of the async engine, drained. */
  method GenerateAsync<V>(j: Job<V>) returns (t: Trace<V>)
    ensures t == Each(j)
  {
    var p: Progress<V> := Progress([], [], [], 0, 0);
    var queues := seq(|j.inputs|, i requires 0 <= i < |j.inputs| => Queued(j.inputs[i]));
    var completed: set<nat> := {};
    ghost var over := false;
    while |completed| < |j.inputs|
      invariant !over && p.errors <= p.invocations
      invariant QueuesAt(j.inputs, queues, completed, p.invocations) && FailuresAhead(j.inputs, p.invocations)
      invariant Each(j) == Whole(j, p)
      decreases Longest(j.inputs) - p.invocations
    {
      var row;
      row, queues, completed := GetRow(j.inputs, p.invocations, j.none, queues, completed);
      match row {
        case Broken(e) =>
          return p.End(InputFailed(e));
        case Exhausted =>
          over := true;
          break;
        case Args(args) =>
          StillAhead(j.inputs, p.invocations);
          var ended;
          p, ended := CallRow(j, p, args);
          if ended.Some? { return p.End(ended.value); }
      }
    }
    if !over { NothingToGet(j.inputs, p.invocations, j.none, queues, completed); }
    var exceeded := CheckThreshold(j.absolute, j.percentage, p.invocations, p.errors);
    t := p.End(if exceeded then ThresholdExceeded else Finished);
  }

  // ---------------------------------------------------------------------------
  // What both loops do
  // ---------------------------------------------------------------------------

  /** Call k of the job is made on row k and comes out in some way. */
  function OutcomeAt<V>(j: Job<V>, k: nat): Outcome<V> {
    j.call(k, Padded(j.inputs, k, j.none))
  }

  /** The results of the successful calls among the first n. */
  function Successes<V>(j: Job<V>, n: nat): seq<V> {
    if n == 0 then []
    else
      var before := Successes(j, n - 1);
      if OutcomeAt(j, n - 1).Returned? then before + [OutcomeAt(j, n - 1).value] else before
  }

  function Failures<V>(j: Job<V>, n: nat): (f: nat)
    ensures f <= n
  {
    if n == 0 then 0
    else Failures(j, n - 1) + if OutcomeAt(j, n - 1).Failed? then 1 else 0
  }

  /** What is reported with each of the failing calls among the first n: how many calls succeeded and how
      many failed so far. */
  function Reports<V>(j: Job<V>, n: nat): (r: seq<(nat, nat)>)
    ensures |r| == Failures(j, n)
  {
    if n == 0 then []
    else
      var before := Reports(j, n - 1);
      if OutcomeAt(j, n - 1).Failed? then before + [(n - 1 - Failures(j, n - 1), Failures(j, n))] else before
  }

  /** The rows of the inputs from k to n. */
  function RowsFrom<V>(j: Job<V>, k: nat, n: nat): (rows: seq<seq<V>>)
    requires k <= n
    ensures |rows| == n - k
    ensures forall i :: 0 <= i < n - k ==> rows[i] == Padded(j.inputs, k + i, j.none)
    decreases n - k
  {
    if k == n then [] else [Padded(j.inputs, k, j.none)] + RowsFrom(j, k + 1, n)
  }

  /** Round k makes a call after which the loop goes on. */
  ghost predicate Proceeds<V>(j: Job<V>, k: nat) {
    && RowOf(j.inputs, k, j.none).Args?
    && !OutcomeAt(j, k).Halted?
    && (j.onError.Stop? ==> !OutcomeAt(j, k).Failed?)
  }

  /** Why a run that made n calls ended, and that it could not have ended before. */
  ghost predicate EndsBecause<V>(j: Job<V>, n: nat, ending: Ending) {
    match ending
    case Finished => n == Longest(j.inputs) && ending == EndOf(j, n, Failures(j, n))
    case ThresholdExceeded => n == Longest(j.inputs) && ending == EndOf(j, n, Failures(j, n))
    case InputFailed(e) => FailureIn(j.inputs, n) == Some(e)
    case Stopped(e) => n > 0 && j.onError.Stop? && OutcomeAt(j, n - 1) == Failed(e)
    case Halt(e) => n > 0 && OutcomeAt(j, n - 1) == Halted(e)
  }

  function Before(n: nat, ending: Ending): int {
    if ending.Stopped? || ending.Halt? then n - 1 else n
  }

  ghost predicate RanFrom<V>(j: Job<V>, k: nat, t: Trace<V>) {
    && k <= t.invocations <= Longest(j.inputs)
    && t.calls == RowsFrom(j, k, t.invocations)
    && Successes(j, k) + t.yielded == Successes(j, t.invocations)
    && t.errors == Failures(j, t.invocations)
    && Reports(j, k) + t.reports == Reports(j, t.invocations)
    && EndsBecause(j, t.invocations, t.ending)
    && forall i: nat :: k <= i < Before(t.invocations, t.ending) ==> Proceeds(j, i)
  }

  /** t is t' with round k in front. */
  ghost predicate PutsInFront<V>(j: Job<V>, k: nat, t: Trace<V>, t': Trace<V>) {
    && t.invocations == t'.invocations && t.errors == t'.errors && t.ending == t'.ending
    && t.calls == [Padded(j.inputs, k, j.none)] + t'.calls
    && Successes(j, k) + t.yielded == Successes(j, k + 1) + t'.yielded
    && Reports(j, k) + t.reports == Reports(j, k + 1) + t'.reports
  }

  lemma RoundInFront<V>(j: Job<V>, k: nat)
    requires k < Longest(j.inputs) && Proceeds(j, k)
    ensures PutsInFront(j, k, Rounds(j, k, Failures(j, k)), Rounds(j, k + 1, Failures(j, k + 1)))
  {
    assert RowOf(j.inputs, k, j.none) == Args(Padded(j.inputs, k, j.none));
    var t, t' := Rounds(j, k, Failures(j, k)), Rounds(j, k + 1, Failures(j, k + 1));
    assert Successes(j, k) + t.yielded == Successes(j, k + 1) + t'.yielded;
    assert Reports(j, k) + t.reports == Reports(j, k + 1) + t'.reports;
  }

  /** A round that proceeds comes in front of the rest of the run. */
  lemma RoundRan<V>(j: Job<V>, k: nat, t: Trace<V>, t': Trace<V>)
    requires Proceeds(j, k) && PutsInFront(j, k, t, t')
    ensures RanFrom(j, k + 1, t') ==> RanFrom(j, k, t)
  {
    if RanFrom(j, k + 1, t') {
      assert t.calls == RowsFrom(j, k, t.invocations);
      forall i: nat | k <= i < Before(t.invocations, t.ending) ensures Proceeds(j, i) {
        assert i == k || k + 1 <= i;
      }
    }
  }

  lemma NoMoreRows<V>(j: Job<V>, k: nat)
    requires k <= Longest(j.inputs) && !RowOf(j.inputs, k, j.none).Args?
    ensures RanFrom(j, k, Rounds(j, k, Failures(j, k)))
  {
  }

  lemma LastCall<V>(j: Job<V>, k: nat)
    requires k <= Longest(j.inputs) && RowOf(j.inputs, k, j.none).Args? && !Proceeds(j, k)
    ensures RanFrom(j, k, Rounds(j, k, Failures(j, k)))
  {
    var args := Padded(j.inputs, k, j.none);
    assert RowOf(j.inputs, k, j.none) == Args(args);
    assert RowsFrom(j, k, k + 1) == [args] + [];
  }

  lemma {:induction false} RoundsRun<V>(j: Job<V>, k: nat)
    requires k <= Longest(j.inputs)
    ensures RanFrom(j, k, Rounds(j, k, Failures(j, k)))
    decreases Longest(j.inputs) - k
  {
    if Proceeds(j, k) {
      RoundsRun(j, k + 1);
      RoundInFront(j, k);
      RoundRan(j, k, Rounds(j, k, Failures(j, k)), Rounds(j, k + 1, Failures(j, k + 1)));
    } else {
      if RowOf(j.inputs, k, j.none).Args? { LastCall(j, k); } else { NoMoreRows(j, k); }
    }
  }

  /** What both loops do, for every job: the calls are the padded rows 0, 1, 2, ..., the yields are
      the results of the successful ones, the counts are right, and the run goes on exactly until the
      inputs are exhausted, an input fails, a call halts the pipeline, or a call fails under STOP. */
  lemma EachIsExact<V>(j: Job<V>)
    ensures RanFrom(j, 0, Each(j))
  {
    RoundsRun(j, 0);
  }

  lemma {:induction false} ReportAt<V>(j: Job<V>, n: nat, i: nat) returns (k: nat)
    requires i < Failures(j, n)
    ensures k < n && OutcomeAt(j, k).Failed? && Failures(j, k) == i && Reports(j, n)[i] == (k - i, i + 1)
  {
    if i < Failures(j, n - 1) { k := ReportAt(j, n - 1, i); } else { k := n - 1; }
  }

  lemma NoHaltBefore<V>(j: Job<V>, k: nat)
    requires k < Each(j).invocations
    ensures forall h: nat | h < k :: !OutcomeAt(j, h).Halted?
  {
    EachIsExact(j);
    forall h: nat | h < k ensures !OutcomeAt(j, h).Halted? {
      assert Proceeds(j, h);
    }
  }

  /** The i-th error that is reported is the i-th failing call, with the calls that had succeeded by then and
      i + 1 errors. */
  lemma ReportsAreExact<V>(j: Job<V>, i: nat) returns (k: nat)
    requires i < |Each(j).reports|
    ensures |Each(j).reports| == Each(j).errors
    ensures k < Each(j).invocations && OutcomeAt(j, k).Failed? && Failures(j, k) == i
    ensures Each(j).reports[i] == (|Successes(j, k)|, i + 1)
  {
    var t := Each(j);
    EachIsExact(j);
    assert Reports(j, 0) + t.reports == t.reports;
    k := ReportAt(j, t.invocations, i);
    NoHaltBefore(j, k);
    CallsAddUp(j, k);
  }

  /** Why a run ends, in terms of its inputs and calls: the first input that fails in the round after the
      last call, no input with anything left, or what the last call did. */
  lemma EndsExactly<V>(j: Job<V>)
    ensures |Each(j).calls| == Each(j).invocations
    ensures var t := Each(j);
            var n := t.invocations;
      match t.ending
      case InputFailed(e) => exists i: nat :: FailsFirst(j.inputs, n, i, e)
      case Stopped(e) => n > 0 && j.onError.Stop? && j.call(n - 1, t.calls[n - 1]) == Failed(e)
      case Halt(e) => n > 0 && j.call(n - 1, t.calls[n - 1]) == Halted(e)
      case _ => forall i :: 0 <= i < |j.inputs| ==> |j.inputs[i].items| <= n && (|j.inputs[i].items| == n ==> j.inputs[i].failure.None?)
  {
    EachIsExact(j);
    var t := Each(j);
    FailureInIsFirst(j.inputs, t.invocations, if t.ending.InputFailed? then t.ending.cause else "");
    NoRowLeft(j, 0, 0);
  }

  /** A run that ends with a verdict ends on an exhausted row. */
  lemma {:induction false} NoRowLeft<V>(j: Job<V>, k: nat, errors: nat)
    requires errors <= k
    ensures var t := Rounds(j, k, errors);
      t.ending.Finished? || t.ending.ThresholdExceeded? ==> RowOf(j.inputs, t.invocations, j.none).Exhausted?
    decreases Longest(j.inputs) - k
  {
    match RowOf(j.inputs, k, j.none)
    case Args(args) =>
      assert k < Longest(j.inputs);
      match j.call(k, args) {
        case Returned(_) => NoRowLeft(j, k + 1, errors);
        case Failed(_) => if j.onError.Continue? { NoRowLeft(j, k + 1, errors + 1); }
        case Halted(_) =>
      }
    case _ =>
  }

  /** No input fails and no call halts the pipeline. */
  ghost predicate RunsToTheEnd<V>(j: Job<V>) {
    && j.onError.Continue?
    && (forall i :: 0 <= i < |j.inputs| ==> j.inputs[i].failure.None?)
    && forall k: nat :: k < Longest(j.inputs) ==> !OutcomeAt(j, k).Halted?
  }

  lemma {:induction false} NoFailureIn<V>(inputs: seq<Input<V>>, k: nat)
    requires forall i :: 0 <= i < |inputs| ==> inputs[i].failure.None?
    ensures FailureIn(inputs, k).None?
  {
    if inputs != [] {
      NoFailureIn(inputs[..|inputs| - 1], k);
    }
  }

  lemma {:induction false} CallsAddUp<V>(j: Job<V>, n: nat)
    requires forall k: nat :: k < n ==> !OutcomeAt(j, k).Halted?
    ensures |Successes(j, n)| + Failures(j, n) == n
  {
    if n > 0 {
      assert !OutcomeAt(j, n - 1).Halted?;
      CallsAddUp(j, n - 1);
    }
  }

  /** Under CONTINUE the loop is a zip-longest: row k holds the k-th item of every input that has one
      and the padding elsewhere, there is one call per row up to the longest input, the successes come
      out in order, and successes and errors add up to the longest input. */
  lemma ZipsLongest<V>(j: Job<V>)
    requires RunsToTheEnd(j)
    ensures var t, n := Each(j), Longest(j.inputs);
            && |t.calls| == n == t.invocations
            && (forall k, i :: 0 <= k < n && 0 <= i < |j.inputs| ==>
                  |t.calls[k]| == |j.inputs|
                  && t.calls[k][i] == if k < |j.inputs[i].items| then j.inputs[i].items[k] else j.none)
            && t.yielded == Successes(j, n)
            && t.errors == Failures(j, n) == |t.reports|
            && |t.yielded| + t.errors == n
            && (t.ending.ThresholdExceeded? <==> Exceeds(j.absolute, j.percentage, n, Failures(j, n)))
  {
    var t, n := Each(j), Longest(j.inputs);
    EachIsExact(j);
    NoFailureIn(j.inputs, t.invocations);
    assert t.invocations > 0 ==> !OutcomeAt(j, t.invocations - 1).Halted?;
    CallsAddUp(j, n);
    forall k, i | 0 <= k < n && 0 <= i < |j.inputs|
      ensures t.calls[k][i] == if k < |j.inputs[i].items| then j.inputs[i].items[k] else j.none
    {
      PaddedAt(j.inputs, k, j.none, i);
    }
    assert Successes(j, 0) + t.yielded == t.yielded;
  }

  /** The calls among the first n that fail. */
  function FailingCalls<V>(j: Job<V>, n: nat): set<nat> {
    set k: nat | k < n && OutcomeAt(j, k).Failed?
  }

  lemma {:induction false} FailuresAreCounted<V>(j: Job<V>, n: nat)
    ensures Failures(j, n) == |FailingCalls(j, n)|
  {
    if n == 0 {
      assert FailingCalls(j, 0) == {};
    } else {
      FailuresAreCounted(j, n - 1);
      assert FailingCalls(j, n) == FailingCalls(j, n - 1) + if OutcomeAt(j, n - 1).Failed? then {n - 1} else {};
    }
  }

  lemma RateAsProduct(f: nat, n: nat, r: real)
    requires n > 0
    ensures f as real / n as real >= r <==> f as real >= r * n as real
  {
    var rate, rows := f as real / n as real, n as real;
    assert rate * rows == f as real;
    if rate < r { RealTimes(r, rate, rows); } else if rate > r { RealTimes(rate, r, rows); }
  }

  lemma RealTimes(a: real, b: real, x: real)
    requires a > b && x > 0.0
    ensures a * x > b * x
  {
    assert (a - b) * x > 0.0;
  }

  lemma EndsWithVerdict<V>(j: Job<V>)
    requires RunsToTheEnd(j)
    ensures Each(j).ending == EndOf(j, Longest(j.inputs), Failures(j, Longest(j.inputs)))
  {
    EachIsExact(j);
    var t := Each(j);
    NoFailureIn(j.inputs, t.invocations);
    assert t.invocations > 0 ==> !OutcomeAt(j, t.invocations - 1).Halted?;
  }

  /** With n calls, f of which fail: f has come to the absolute threshold, or to r * n. */
  predicate Reached(absolute: Option<nat>, percentage: Option<real>, n: nat, f: nat) {
    || (absolute.Some? && f >= absolute.value)
    || (percentage.Some? && n > 0 && f as real >= percentage.value * n as real)
  }

  lemma ExceedsWhenReached(absolute: Option<nat>, percentage: Option<real>, n: nat, f: nat)
    ensures Exceeds(absolute, percentage, n, f) <==> Reached(absolute, percentage, n, f)
  {
    if percentage.Some? && n > 0 { RateAsProduct(f, n, percentage.value); }
  }

  /** The verdict in numbers: with n rows, f of whose calls fail, the threshold raises exactly if it is
      reached, and otherwise the loop simply ends. */
  lemma {:induction false} VerdictIsExact<V>(j: Job<V>)
    requires RunsToTheEnd(j)
    ensures var n := Longest(j.inputs);
      Each(j).ending ==
        if Reached(j.absolute, j.percentage, n, |FailingCalls(j, n)|) then ThresholdExceeded else Finished
  {
    var n := Longest(j.inputs);
    EndsWithVerdict(j);
    FailuresAreCounted(j, n);
    ExceedsWhenReached(j.absolute, j.percentage, n, Failures(j, n));
  }

  /** Where the failures fall does not matter: two jobs with the same thresholds that run to the end with
      equally many rows and equally many failing calls come to the same verdict, and a job with more
      failing calls is not let off where one with fewer is not. */
  lemma {:induction false} VerdictByCounts<V>(i: Job<V>, j: Job<V>)
    requires RunsToTheEnd(i) && RunsToTheEnd(j) && i.absolute == j.absolute && i.percentage == j.percentage
    requires Longest(i.inputs) == Longest(j.inputs)
    requires Failures(i, Longest(i.inputs)) <= Failures(j, Longest(j.inputs))
    ensures Each(i).ending.ThresholdExceeded? ==> Each(j).ending.ThresholdExceeded?
    ensures Each(i).errors == Each(j).errors ==> Each(i).ending == Each(j).ending
  {
    ZipsLongest(i);
    ZipsLongest(j);
    EachIsExact(i);
    EachIsExact(j);
    var n := Longest(i.inputs);
    NoFailureIn(i.inputs, Each(i).invocations);
    NoFailureIn(j.inputs, Each(j).invocations);
    if n > 0 {
      RateGrows(Failures(i, n), Failures(j, n), n);
      assert !OutcomeAt(i, n - 1).Halted? && !OutcomeAt(j, n - 1).Halted?;
    }
  }

  lemma RateGrows(few: nat, many: nat, n: nat)
    requires few <= many && n > 0
    ensures few as real / n as real <= many as real / n as real
  {
  }
}
