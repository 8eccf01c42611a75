/** The fan-out handoff of the async engine: the branch `AsyncQueueBranch`, and the task
    `_pump_iterator` that feeds a branch for every consumer.  Tasks interleave at every `await`. */
module AsyncHandoff {
  import opened Wrappers

  type Error = string

  datatype Entry<V> = Item(value: V) | Failure(error: Error) | Eof

  datatype Reason = Exhausted | Failed | Closed

  /** How one `__anext__` comes out.  `Waits` is a pull suspended in `queue.get()`. */
  datatype Outcome<V> = Delivered(value: V) | Ended | Raised(error: Error) | ClosedEarly | Waits

  // ---------------------------------------------------------------------------
  // One branch
  // ---------------------------------------------------------------------------

  /** `received` are the entries taken while the branch was active; `waiting` counts the suspended
      pulls, and `terminated` says that `terminate` was called. */
  datatype Branch<V> = Branch(queue: seq<Entry<V>>, capacity: nat, active: bool, closeReason: Option<Reason>,
                              failure: Option<Error>, received: seq<Entry<V>>, waiting: nat, terminated: bool)
  {
    function Close(reason: Reason): Branch<V> {
      if !active then this else this.(active := false, closeReason := Some(reason))
    }

    /** An entry leaves the queue. */
    function Popped(): Branch<V>
      requires queue != []
    {
      this.(queue := queue[1..],
            received := if active then received + [queue[0]] else received)
    }

    /** A pull goes on with the entry it got. */
    function Taken(): (Branch<V>, Outcome<V>)
      requires queue != []
    {
      match queue[0]
      case Item(v) => (Popped(), Delivered(v))
      case Failure(e) => (Popped().Close(Failed).(failure := Some(e)), Raised(e))
      case Eof => (Popped().Close(Exhausted), Ended)
    }

    /** A suspended pull goes on. */
    function Woken(): (Branch<V>, Outcome<V>)
      requires queue != [] && waiting > 0
    {
      this.(waiting := waiting - 1).Taken()
    }

    /** `__anext__` up to its end or its first suspension. */
    function Pull(): (Branch<V>, Outcome<V>) {
      if !active then
        (this, if closeReason == Some(Exhausted) then Ended
               else if closeReason == Some(Failed) && failure.Some? then Raised(failure.value)
               else ClosedEarly)
      else if queue == [] then (this.(waiting := waiting + 1), Waits)
      else Taken()
    }

    function Add(entry: Entry<V>): Branch<V> {
      this.(queue := queue + [entry])
    }

    function Terminate(e: Error): Branch<V> {
      var b := Close(Failed).(failure := Some(e), terminated := true);
      if |queue| < capacity then b.Add(Failure(e))
      else b.(queue := (if queue == [] then [] else queue[1..]) + [Failure(e)])
    }
  }

  class AsyncQueueBranch<V> {
    const capacity: nat
    var queue: seq<Entry<V>>
    var active: bool
    var closeReason: Option<Reason>
    var failure: Option<Error>
    ghost var received: seq<Entry<V>>
    ghost var waiting: nat
    ghost var terminated: bool

    ghost function View(): Branch<V>
      reads this
    {
      Branch(queue, capacity, active, closeReason, failure, received, waiting, terminated)
    }

    constructor (maxInFlight: nat)
      ensures View() == Branch([], if maxInFlight > 1 then maxInFlight else 1, true, None, None, [], 0, false)
    {
      capacity := if maxInFlight > 1 then maxInFlight else 1;
      queue, active, closeReason, failure := [], true, None, None;
      received, waiting, terminated := [], 0, false;
    }

    method Next() returns (r: Outcome<V>)
      modifies this
      ensures (View(), r) == old(View()).Pull()
    {
      if !active {
        if closeReason == Some(Exhausted) { return Ended; }
        if closeReason == Some(Failed) && failure.Some? { return Raised(failure.value); }
        return ClosedEarly;
      }
      if queue == [] {
        waiting := waiting + 1;
        return Waits;
      }
      r := Handle();
    }

    /** A suspended pull goes on. */
    method Resume() returns (r: Outcome<V>)
      requires queue != [] && waiting > 0
      modifies this
      ensures (View(), r) == old(View()).Woken()
    {
      waiting := waiting - 1;
      r := Handle();
    }

    /** `__anext__` from the moment `queue.get()` has an entry. */
    method Handle() returns (r: Outcome<V>)
      requires queue != []
      modifies this
      ensures (View(), r) == old(View()).Taken()
    {
      var item := queue[0];
      queue := queue[1..];
      received := if active then received + [item] else received;
      match item {
        case Failure(e) =>
          Close(Failed);
          failure := Some(e);
          r := Raised(e);
        case Eof =>
          Close(Exhausted);
          r := Ended;
        case Item(v) =>
          r := Delivered(v);
      }
    }

    /** One turn of the loop in `put`: `added` tells success, otherwise the wait timed out. */
    method PutNow(item: Entry<V>) returns (added: bool)
      modifies `queue
      ensures added == (|old(queue)| < capacity)
      ensures View() == if added then old(View()).Add(item) else old(View())
    {
      added := |queue| < capacity;
      if added { queue := queue + [item]; }
    }

    method Close(reason: Reason)
      modifies `active, `closeReason
      ensures View() == old(View()).Close(reason)
    {
      if !active { return; }
      active, closeReason := false, Some(reason);
    }

    method Terminate(e: Error)
      modifies this
      ensures View() == old(View()).Terminate(e)
    {
      Close(Failed);
      failure, terminated := Some(e), true;
      var added := PutNow(Failure(e));
      if !added {
        if queue != [] { queue := queue[1..]; }
        queue := queue + [Failure(e)];
      }
    }
  }

  // ---------------------------------------------------------------------------
  // A branch after `terminate`
  // ---------------------------------------------------------------------------

  /** What can happen to a branch; `Getting` is `get`, which passes the queue's entry on as it is. */
  datatype Use<V> = Pulling | Waking | Getting | Putting(entry: Entry<V>) | Closing | Terminating(error: Error)

  predicate CanWake<V>(b: Branch<V>) {
    b.waiting > 0 && b.queue != []
  }

  function Used<V>(b: Branch<V>, use: Use<V>): Branch<V> {
    match use
    case Pulling => b.Pull().0
    case Waking => if CanWake(b) then b.Woken().0 else b
    case Getting => if b.queue != [] then b.Popped() else b
    case Putting(entry) => if |b.queue| < b.capacity then b.Add(entry) else b
    case Closing => b.Close(Closed)
    case Terminating(e) => b.Terminate(e)
  }

  function UsedBy<V>(b: Branch<V>, uses: seq<Use<V>>): Branch<V> {
    if uses == [] then b else Used(UsedBy(b, uses[..|uses| - 1]), uses[|uses| - 1])
  }

  /** The failure a use leaves on a branch that is closed as failed. */
  function Telling<V>(b: Branch<V>, use: Use<V>, e: Error): Error {
    match use
    case Terminating(x) => x
    case Waking => if CanWake(b) && b.queue[0].Failure? then b.queue[0].error else e
    case _ => e
  }

  /** The last failure told by the uses: that of a `terminate`, or one that a suspended pull took. */
  function Told<V>(b: Branch<V>, uses: seq<Use<V>>, e: Error): Error {
    if uses == [] then e
    else Telling(UsedBy(b, uses[..|uses| - 1]), uses[|uses| - 1], Told(b, uses[..|uses| - 1], e))
  }

  /** The exception of the last `terminate` among the uses, or else e. */
  function LastTermination<V>(uses: seq<Use<V>>, e: Error): Error {
    if uses == [] then e
    else if uses[|uses| - 1].Terminating? then uses[|uses| - 1].error
    else LastTermination(uses[..|uses| - 1], e)
  }

  lemma OneMoreUse<V>(b: Branch<V>, use: Use<V>, e: Error)
    requires !b.active && b.closeReason == Some(Failed) && b.failure == Some(e)
    ensures var after := Used(b, use);
            && !after.active && after.closeReason == Some(Failed) && after.waiting <= b.waiting
            && after.failure == Some(Telling(b, use, e))
  {
  }

  lemma {:induction false} StaysTerminated<V>(b: Branch<V>, e: Error, uses: seq<Use<V>>)
    requires b.active
    ensures var after := UsedBy(b.Terminate(e), uses);
            && !after.active && after.closeReason == Some(Failed) && after.waiting <= b.waiting
            && after.failure == Some(Told(b.Terminate(e), uses, e))
  {
    if uses != [] {
      var earlier := uses[..|uses| - 1];
      StaysTerminated(b, e, earlier);
      OneMoreUse(UsedBy(b.Terminate(e), earlier), uses[|uses| - 1], Told(b.Terminate(e), earlier, e));
    }
  }

  /** After `terminate(e)` on an open branch, full or not, with pulls suspended or not, and whatever is
      done to it then: every pull raises the failure that was told last. */
  lemma {:induction false} TerminationIsNeverLost<V>(b: Branch<V>, e: Error, uses: seq<Use<V>>)
    requires b.active
    ensures UsedBy(b.Terminate(e), uses).Pull().1 == Raised(Told(b.Terminate(e), uses, e))
  {
    StaysTerminated(b, e, uses);
  }

  lemma {:induction false} NobodyWakes<V>(b: Branch<V>, e: Error, uses: seq<Use<V>>)
    requires b.active && b.waiting == 0
    ensures Told(b.Terminate(e), uses, e) == LastTermination(uses, e)
  {
    if uses != [] {
      NobodyWakes(b, e, uses[..|uses| - 1]);
      StaysTerminated(b, e, uses[..|uses| - 1]);
    }
  }

  /** Taking k entries off the queue. */
  function Gets<V>(k: nat): (uses: seq<Use<V>>)
    ensures |uses| == k && forall i :: 0 <= i < k ==> uses[i] == Getting
  {
    seq(k, i => Getting)
  }

  lemma {:induction false} GetsTellNothing<V>(b: Branch<V>, k: nat, e: Error)
    ensures Told(b, Gets(k), e) == e && LastTermination(Gets<V>(k), e) == e
  {
    if k > 0 {
      GetsTellNothing(b, k - 1, e);
      assert Gets<V>(k)[..k - 1] == Gets(k - 1);
    }
  }

  lemma {:induction false} GetsSkip<V>(b: Branch<V>, k: nat)
    requires k <= |b.queue| && !b.active
    ensures UsedBy(b, Gets(k)) == b.(queue := b.queue[k..])
  {
    if k > 0 {
      GetsSkip(b, k - 1);
      assert Gets<V>(k)[..k - 1] == Gets(k - 1);
      var before := b.(queue := b.queue[k - 1..]);
      assert before.queue != [] && before.queue[1..] == b.queue[k..];
      assert Used(before, Getting) == before.Popped();
    }
  }

  lemma GetAllAndPut<V>(t: Branch<V>, entry: Entry<V>, e: Error) returns (uses: seq<Use<V>>)
    requires !t.active && t.capacity >= 1
    ensures UsedBy(t, uses) == t.(queue := [entry]) && LastTermination(uses, e) == e
  {
    var k := |t.queue|;
    GetsSkip(t, k);
    GetsTellNothing(t, k, e);
    uses := Gets<V>(k) + [Putting(entry)];
    assert uses[..k] == Gets(k);
    assert t.queue[k..] == [] && [] + [entry] == [entry];
    assert UsedBy(t, uses) == Used(t.(queue := []), Putting(entry));
  }

  /** A suspended pull can still be woken by any failure that gets into the queue. */
  lemma SomebodyWakes<V>(b: Branch<V>, e: Error, x: Error)
    requires b.active && b.waiting > 0 && b.capacity >= 1
    ensures exists uses :: Told(b.Terminate(e), uses, e) == x && LastTermination(uses, e) == e
  {
    var t := b.Terminate(e);
    var uses := GetAllAndPut(t, Failure(x), e);
    WakingTells(t, uses, e);
  }

  lemma WakingTells<V>(t: Branch<V>, uses: seq<Use<V>>, e: Error)
    requires CanWake(UsedBy(t, uses)) && UsedBy(t, uses).queue[0].Failure?
    ensures Told(t, uses + [Waking], e) == UsedBy(t, uses).queue[0].error
    ensures LastTermination(uses + [Waking], e) == LastTermination(uses, e)
  {
    assert (uses + [Waking])[..|uses|] == uses;
  }

  /** The last `terminate` decides what all later pulls raise, whatever the uses, exactly when no pull
      was suspended at the first one. */
  lemma TerminationDecidesExactly<V>(b: Branch<V>, e: Error)
    requires b.active && b.capacity >= 1
    ensures (forall uses :: UsedBy(b.Terminate(e), uses).Pull().1 == Raised(LastTermination(uses, e)))
       <==> b.waiting == 0
  {
    if b.waiting == 0 {
      forall uses ensures UsedBy(b.Terminate(e), uses).Pull().1 == Raised(LastTermination(uses, e)) {
        TerminationIsNeverLost(b, e, uses);
        NobodyWakes(b, e, uses);
      }
    } else {
      var x := e + "'";
      SomebodyWakes(b, e, x);
      var uses :| Told(b.Terminate(e), uses, e) == x && LastTermination(uses, e) == e;
      TerminationIsNeverLost(b, e, uses);
      assert x != e;
    }
  }

  /** Uses by consumers only. */
  predicate ByConsumers<V>(uses: seq<Use<V>>) {
    forall i :: 0 <= i < |uses| ==> uses[i].Pulling? || uses[i].Waking? || uses[i].Getting? || uses[i].Closing?
  }

  predicate NoOther<V>(queue: seq<Entry<V>>, e: Error) {
    forall k :: 0 <= k < |queue| ==> queue[k].Failure? ==> queue[k].error == e
  }

  /** The entries that `terminate` leaves in the queue. */
  function Kept<V>(b: Branch<V>): seq<Entry<V>> {
    if |b.queue| < b.capacity || b.queue == [] then b.queue else b.queue[1..]
  }

  lemma {:induction false} OwnFailureOnly<V>(t: Branch<V>, e: Error, uses: seq<Use<V>>)
    requires !t.active && NoOther(t.queue, e) && ByConsumers(uses)
    ensures Told(t, uses, e) == e && NoOther(UsedBy(t, uses).queue, e) && !UsedBy(t, uses).active
  {
    if uses != [] {
      var last := |uses| - 1;
      assert forall i :: 0 <= i < last ==> uses[..last][i] == uses[i];
      OwnFailureOnly(t, e, uses[..last]);
      assert uses[last].Pulling? || uses[last].Waking? || uses[last].Getting? || uses[last].Closing?;
    }
  }

  /** `terminate` closes an open branch as failed and adds its exception behind what is unread; only on a
      full queue the oldest unread entry makes room for it. */
  lemma TerminateDropsTheOldest<V>(b: Branch<V>, e: Error)
    requires b.active && b.capacity >= 1 && |b.queue| <= b.capacity
    ensures var t := b.Terminate(e);
      && t.queue == (if |b.queue| == b.capacity then b.queue[1..] else b.queue) + [Failure(e)]
      && |t.queue| <= b.capacity && !t.active && t.closeReason == Some(Failed) && t.received == b.received
  {
  }

  /** With nothing put and no further `terminate`, later pulls raise e whatever the consumers do exactly
      when no pull is suspended or `terminate` finds no other failure in the queue that it keeps. */
  lemma TerminationAmongConsumers<V>(b: Branch<V>, e: Error)
    requires b.active
    ensures (forall uses | ByConsumers(uses) :: UsedBy(b.Terminate(e), uses).Pull().1 == Raised(e))
       <==> b.waiting == 0 || NoOther(Kept(b), e)
  {
    var t := b.Terminate(e);
    assert t.queue == Kept(b) + [Failure(e)];
    OwnFailureAdded(Kept(b), e);
    if b.waiting == 0 || NoOther(t.queue, e) {
      forall uses | ByConsumers(uses) ensures UsedBy(t, uses).Pull().1 == Raised(e) {
        TerminationIsNeverLost(b, e, uses);
        if b.waiting == 0 {
          NobodyWakes(b, e, uses);
          NoTermination(uses, e);
        } else {
          OwnFailureOnly(t, e, uses);
        }
      }
    } else {
      var k :| 0 <= k < |t.queue| && t.queue[k].Failure? && t.queue[k].error != e;
      var gets: seq<Use<V>> := Gets(k);
      GetsSkip(t, k);
      GetsTellNothing(t, k, e);
      WakingTells(t, gets, e);
      assert ByConsumers(gets + [Waking]);
      TerminationIsNeverLost(b, e, gets + [Waking]);
    }
  }

  lemma OwnFailureAdded<V>(kept: seq<Entry<V>>, e: Error)
    ensures NoOther(kept + [Failure(e)], e) <==> NoOther(kept, e)
  {
    var queue := kept + [Failure(e)];
    forall k | 0 <= k < |kept| ensures queue[k] == kept[k] {
    }
    if NoOther(queue, e) {
      forall k | 0 <= k < |kept| && kept[k].Failure? ensures kept[k].error == e {
        assert queue[k] == kept[k];
      }
    }
  }

  lemma {:induction false} NoTermination<V>(uses: seq<Use<V>>, e: Error)
    requires ByConsumers(uses)
    ensures LastTermination(uses, e) == e
  {
    if uses != [] {
      var last := |uses| - 1;
      assert forall i :: 0 <= i < last ==> uses[..last][i] == uses[i];
      assert !uses[last].Terminating?;
      NoTermination(uses[..last], e);
    }
  }

  /** `terminate` does not reopen a branch: one that had ended still ends, and one closed early still
      reports that. */
  lemma ClosedStaysClosed<V>(b: Branch<V>, e: Error)
    requires !b.active && b.closeReason != Some(Failed)
    ensures b.Terminate(e).Pull().1 == b.Pull().1
  {
  }

  // ---------------------------------------------------------------------------
  // A branch that has ended
  // ---------------------------------------------------------------------------

  lemma {:induction false} ReasonStays<V>(b: Branch<V>, uses: seq<Use<V>>)
    requires !b.active
    ensures !UsedBy(b, uses).active && UsedBy(b, uses).closeReason == b.closeReason
    ensures b.failure.Some? ==> UsedBy(b, uses).failure.Some?
  {
    if uses != [] { ReasonStays(b, uses[..|uses| - 1]); }
  }

  /** Whatever is done to a branch after its early close, every pull reports that. */
  lemma EarlyCloseIsReported<V>(b: Branch<V>, uses: seq<Use<V>>)
    requires b.active
    ensures UsedBy(Used(b, Closing), uses).Pull().1 == ClosedEarly
  {
    ReasonStays(Used(b, Closing), uses);
  }

  /** The pull that takes the end of the stream, and every pull after it, ends the iteration. */
  lemma EndIsFinal<V>(b: Branch<V>, uses: seq<Use<V>>)
    requires b.active && b.queue != [] && b.queue[0] == Eof
    ensures b.Pull().1 == Ended && UsedBy(Used(b, Pulling), uses).Pull().1 == Ended
  {
    ReasonStays(Used(b, Pulling), uses);
  }

  lemma {:induction false} FailureStays<V>(b: Branch<V>, uses: seq<Use<V>>, e: Error)
    requires !b.active && b.closeReason == Some(Failed) && b.failure == Some(e)
    ensures UsedBy(b, uses).failure == Some(Told(b, uses, e))
  {
    ReasonStays(b, uses);
    if uses != [] {
      ReasonStays(b, uses[..|uses| - 1]);
      FailureStays(b, uses[..|uses| - 1], e);
    }
  }

  /** The pull that takes a failure raises it, and so does every later one, unless a `terminate` or a
      suspended pull tells another. */
  lemma FailureIsFinal<V>(b: Branch<V>, uses: seq<Use<V>>, e: Error)
    requires b.active && b.queue != [] && b.queue[0] == Failure(e)
    ensures b.Pull().1 == Raised(e)
    ensures UsedBy(Used(b, Pulling), uses).Pull().1 == Raised(Told(Used(b, Pulling), uses, e))
  {
    ReasonStays(Used(b, Pulling), uses);
    FailureStays(Used(b, Pulling), uses, e);
  }

  /** A pull that finds the queue empty waits, and then gets what it would have got had it come later. */
  lemma WaitingGetsTheNext<V>(b: Branch<V>, entry: Entry<V>)
    requires b.active && b.queue == []
    ensures b.Pull().1 == Waits && Used(b, Pulling).Add(entry).Woken() == b.Add(entry).Pull()
  {
  }

  // ---------------------------------------------------------------------------
  // The pump
  // ---------------------------------------------------------------------------

  /** What the pump puts on every branch: the items, the failure of the source if it fails, the end. */
  function Script<V>(items: seq<V>, failure: Option<Error>): (script: seq<Entry<V>>)
    ensures |script| == |items| + (if failure.Some? then 2 else 1)
    ensures forall k :: 0 <= k < |items| ==> script[k] == Item(items[k])
    ensures failure.Some? ==> script[|items|] == Failure(failure.value)
    ensures script[|script| - 1] == Eof
  {
    seq(|items|, k requires 0 <= k < |items| => Item(items[k]))
    + (if failure.Some? then [Failure(failure.value)] else []) + [Eof]
  }

  datatype Source<V> = Source(items: seq<V>, failure: Option<Error>) {
    function Entries(): seq<Entry<V>> {
      Script(items, failure)
    }
  }

  /** The pump is at branch `at` of entry `entry`; `checked` says that it has seen the branch active
      and is inside `queue.put`. */
  datatype State<V> = State(entry: nat, at: nat, checked: bool, branches: seq<Branch<V>>)

  datatype Action<V> = CheckActive | Put | Timeout | NextEntry | Act(i: nat, use: Use<V>)

  ghost predicate Init<V>(s: State<V>) {
    && s.entry == 0 && s.at == 0 && !s.checked
    && forall i :: 0 <= i < |s.branches| ==>
         s.branches[i].capacity >= 1
         && s.branches[i] == Branch([], s.branches[i].capacity, true, None, None, [], 0, false)
  }

  predicate Enabled<V>(source: Source<V>, s: State<V>, a: Action<V>) {
    match a
    case CheckActive => s.entry < |source.Entries()| && s.at < |s.branches| && !s.checked
    case Put => s.checked && s.entry < |source.Entries()| && s.at < |s.branches|
                && |s.branches[s.at].queue| < s.branches[s.at].capacity
    case Timeout => s.checked
    case NextEntry => s.entry < |source.Entries()| && s.at == |s.branches|
    case Act(i, use) => i < |s.branches| && !use.Putting?
  }

  function Apply<V>(source: Source<V>, s: State<V>, a: Action<V>): State<V>
    requires Enabled(source, s, a)
  {
    match a
    case CheckActive => if s.branches[s.at].active then s.(checked := true) else s.(at := s.at + 1)
    case Put =>
      s.(branches := s.branches[s.at := s.branches[s.at].Add(source.Entries()[s.entry])],
         at := s.at + 1, checked := false)
    case Timeout => s.(checked := false)
    case NextEntry => s.(entry := s.entry + 1, at := 0)
    case Act(i, use) => s.(branches := s.branches[i := Used(s.branches[i], use)])
  }

  ghost predicate Run<V>(source: Source<V>, s: State<V>, actions: seq<Action<V>>, t: State<V>)
    decreases |actions|
  {
    if actions == [] then s == t
    else Enabled(source, s, actions[0]) && Run(source, Apply(source, s, actions[0]), actions[1..], t)
  }

  ghost predicate Reachable<V(!new)>(source: Source<V>, t: State<V>) {
    exists s, actions :: Init(s) && Run(source, s, actions, t)
  }

  /** How many entries branch i has been offered. */
  function Offered<V>(s: State<V>, i: nat): nat {
    s.entry + if i < s.at then 1 else 0
  }

  ghost predicate BranchOk<V>(script: seq<Entry<V>>, offered: nat, b: Branch<V>) {
    && offered <= |script| && b.capacity >= 1 && |b.queue| <= b.capacity
    && (b.active ==> !b.terminated && b.received + b.queue == script[..offered])
    && (!b.active ==> b.closeReason.Some? && (b.closeReason == Some(Failed) ==> b.failure.Some?))
    && (!b.active && b.closeReason == Some(Exhausted) ==> b.received == script)
    && (!b.active && b.closeReason == Some(Failed) && !b.terminated ==>
          && b.failure.Some? && FailedAt(script, b.received, b.failure.value)
          && |b.received| <= offered && forall k :: 0 <= k < |b.queue| ==> b.queue[k] == Eof)
  }

  /** The entries up to and including the failure. */
  ghost predicate FailedAt<V>(script: seq<Entry<V>>, received: seq<Entry<V>>, e: Error) {
    received != [] && received <= script && received[|received| - 1] == Failure(e)
  }

  ghost predicate Good<V>(source: Source<V>, s: State<V>) {
    && s.entry <= |source.Entries()| && s.at <= |s.branches|
    && (s.entry == |source.Entries()| ==> s.at == 0 && !s.checked)
    && (s.checked ==> s.at < |s.branches|)
    && forall i: nat {:trigger BranchGood(source, s, i)} :: i < |s.branches| ==> BranchGood(source, s, i)
  }

  ghost predicate BranchGood<V>(source: Source<V>, s: State<V>, i: nat)
    requires i < |s.branches|
  {
    BranchOk(source.Entries(), Offered(s, i), s.branches[i])
  }

  lemma UseKeeps<V>(source: Source<V>, offered: nat, b: Branch<V>, use: Use<V>)
    requires BranchOk(source.Entries(), offered, b) && !use.Putting?
    ensures BranchOk(source.Entries(), offered, Used(b, use))
  {
    match use
    case Closing =>
    case Terminating(e) => TerminateKeeps(source, offered, b, e);
    case Waking => if CanWake(b) { PopKeeps(source, offered, b.(waiting := b.waiting - 1)); }
    case _ => if b.queue != [] { PopKeeps(source, offered, b); }
  }

  lemma TerminateKeeps<V>(source: Source<V>, offered: nat, b: Branch<V>, e: Error)
    requires BranchOk(source.Entries(), offered, b)
    ensures BranchOk(source.Entries(), offered, b.Terminate(e))
  {
  }

  lemma PopKeeps<V>(source: Source<V>, offered: nat, b: Branch<V>)
    requires BranchOk(source.Entries(), offered, b) && b.queue != []
    ensures BranchOk(source.Entries(), offered, b.Popped())
    ensures BranchOk(source.Entries(), offered, b.Taken().0)
  {
    if b.active {
      var script, more := source.Entries(), b.received + [b.queue[0]];
      assert b.received + b.queue == more + b.queue[1..];
      assert more <= script && script[|b.received|] == b.queue[0];
      if b.queue[0].Eof? {
        assert |more| == |script|;
      }
    }
  }

  lemma PutKeeps<V>(source: Source<V>, offered: nat, b: Branch<V>)
    requires BranchOk(source.Entries(), offered, b) && offered < |source.Entries()|
    ensures |b.queue| < b.capacity ==> BranchOk(source.Entries(), offered + 1, b.Add(source.Entries()[offered]))
    ensures !b.active ==> BranchOk(source.Entries(), offered + 1, b)
  {
    var script := source.Entries();
    assert script[..offered + 1] == script[..offered] + [script[offered]];
  }

  lemma StepGood<V>(source: Source<V>, s: State<V>, a: Action<V>)
    requires Good(source, s) && Enabled(source, s, a)
    ensures Good(source, Apply(source, s, a))
  {
    var t := Apply(source, s, a);
    forall i: nat | i < |t.branches| ensures BranchGood(source, t, i) {
      assert BranchGood(source, s, i);
      if a.Act? {
        UseKeeps(source, Offered(s, i), s.branches[i], a.use);
      } else if i == s.at && s.entry < |source.Entries()| {
        PutKeeps(source, s.entry, s.branches[i]);
      }
    }
  }

  lemma {:induction false} RunGood<V>(source: Source<V>, s: State<V>, actions: seq<Action<V>>, t: State<V>)
    requires Good(source, s) && Run(source, s, actions, t)
    ensures Good(source, t)
    decreases |actions|
  {
    if actions != [] {
      StepGood(source, s, actions[0]);
      RunGood(source, Apply(source, s, actions[0]), actions[1..], t);
    }
  }

  lemma ReachableGood<V(!new)>(source: Source<V>, t: State<V>)
    requires Reachable(source, t)
    ensures Good(source, t)
  {
    var s, actions :| Init(s) && Run(source, s, actions, t);
    forall i: nat | i < |s.branches| ensures BranchGood(source, s, i) {
    }
    RunGood(source, s, actions, t);
  }

  /** The items among some entries. */
  function ItemsOf<V>(entries: seq<Entry<V>>): seq<V> {
    if entries == [] then []
    else
      var before := ItemsOf(entries[..|entries| - 1]);
      if entries[|entries| - 1].Item? then before + [entries[|entries| - 1].value] else before
  }

  lemma {:induction false} ItemsOfScript<V>(source: Source<V>, n: nat)
    requires n <= |source.Entries()|
    ensures ItemsOf(source.Entries()[..n]) == if n <= |source.items| then source.items[..n] else source.items
  {
    if n > 0 {
      var entries := source.Entries()[..n];
      ItemsOfScript(source, n - 1);
      assert entries[..n - 1] == source.Entries()[..n - 1] && entries[n - 1] == source.Entries()[n - 1];
      if n <= |source.items| {
        assert source.items[..n] == source.items[..n - 1] + [source.items[n - 1]];
      } else if n == |source.items| + 1 {
        assert source.items[..n - 1] == source.items;
      }
    }
  }

  /** In every interleaving: an open branch has received and queued exactly what the pump has offered
      it so far, so once the pump is done it gets every item, then the failure, then the end; a
      consumer that saw the end received everything; and one that saw a failure without a `terminate`
      received every item before the source's own failure. */
  lemma PumpLosesNothing<V(!new)>(source: Source<V>, s: State<V>, i: nat)
    requires Reachable(source, s) && i < |s.branches|
    ensures var b := s.branches[i];
      && (b.active ==> b.received + b.queue <= source.Entries()
                       && |b.received + b.queue| == s.entry + if i < s.at then 1 else 0)
      && (b.active && s.entry == |source.Entries()| ==> b.received + b.queue == source.Entries())
      && (!b.active && b.closeReason == Some(Exhausted) ==> b.received == source.Entries())
      && (!b.active && b.closeReason == Some(Failed) && !b.terminated ==>
            b.failure.Some? && b.failure == source.failure
            && ItemsOf(b.received) == source.items && |b.received| == |source.items| + 1)
  {
    ReachableGood(source, s);
    assert BranchGood(source, s, i);
    var b, script := s.branches[i], source.Entries();
    if !b.active && b.closeReason == Some(Failed) && !b.terminated {
      assert script[|b.received| - 1] == Failure(b.failure.value);
      assert b.received == script[..|b.received|];
      ItemsOfScript(source, |b.received|);
    } else if b.active && s.entry == |script| {
      assert script[..|script|] == script;
    }
  }

  lemma {:induction false} ReasonStaysInRun<V>(source: Source<V>, s: State<V>, actions: seq<Action<V>>, t: State<V>, i: nat)
    requires Run(source, s, actions, t) && i < |s.branches| && !s.branches[i].active
    ensures i < |t.branches| && !t.branches[i].active && t.branches[i].closeReason == s.branches[i].closeReason
    ensures s.branches[i].failure.Some? ==> t.branches[i].failure.Some?
    decreases |actions|
  {
    if actions != [] {
      ReasonStaysInRun(source, Apply(source, s, actions[0]), actions[1..], t, i);
    }
  }

  /** What a pull on a closed branch answers, in every reachable state, for the rest of the run: the end
      exactly if it was taken there, with everything received; an early close is reported as such; and a
      failure is raised. */
  lemma ClosedAnswers<V(!new)>(source: Source<V>, s: State<V>, actions: seq<Action<V>>, t: State<V>, i: nat)
    requires Reachable(source, s) && Run(source, s, actions, t) && i < |s.branches| && !s.branches[i].active
    ensures i < |t.branches|
    ensures match s.branches[i].closeReason
      case Some(Exhausted) => t.branches[i].Pull().1 == Ended && s.branches[i].received == source.Entries()
      case Some(Closed) => t.branches[i].Pull().1 == ClosedEarly
      case Some(Failed) => t.branches[i].Pull().1.Raised?
      case None => false
  {
    ReachableGood(source, s);
    assert BranchGood(source, s, i);
    ReasonStaysInRun(source, s, actions, t, i);
  }

  /** Pulling until something other than an item comes out. */
  function Drained<V>(b: Branch<V>): (seq<V>, Outcome<V>)
    decreases |b.queue|
  {
    var (after, outcome) := b.Pull();
    if outcome.Delivered? then
      var (items, last) := Drained(after);
      ([outcome.value] + items, last)
    else ([], outcome)
  }

  /** A consumer that pulls an open branch when the pump is done gets the items it has not had yet and
      then the failure of the source, or its end. */
  lemma {:induction false} LateConsumerGetsTheRest<V>(source: Source<V>, b: Branch<V>)
    requires b.active && b.received + b.queue == source.Entries() && |b.received| <= |source.items|
    ensures Drained(b) == (source.items[|b.received|..],
                           if source.failure.Some? then Raised(source.failure.value) else Ended)
    decreases |b.queue|
  {
    var k := |b.received|;
    assert b.queue[0] == source.Entries()[k];
    if k < |source.items| {
      var after := b.Taken().0;
      assert after.received + after.queue == b.received + b.queue;
      LateConsumerGetsTheRest(source, after);
      assert source.items[k..] == [source.items[k]] + source.items[k + 1..];
    }
  }

  // ---------------------------------------------------------------------------
  // Progress of the pump
  // ---------------------------------------------------------------------------

  /** The pump of `t` has come further than that of `s`. */
  predicate Further<V>(s: State<V>, t: State<V>) {
    t.entry > s.entry || (t.entry == s.entry && t.at > s.at)
  }

  predicate ByPump<V>(actions: seq<Action<V>>) {
    forall k :: 0 <= k < |actions| ==> !actions[k].Act?
  }

  /** The pump stands before an open branch with a full queue. */
  predicate Held<V>(s: State<V>) {
    s.at < |s.branches| && s.branches[s.at].active && |s.branches[s.at].queue| >= s.branches[s.at].capacity
  }

  lemma RunTwo<V>(source: Source<V>, s: State<V>, a: Action<V>, b: Action<V>)
    requires Enabled(source, s, a) && Enabled(source, Apply(source, s, a), b)
    ensures Run(source, s, [a, b], Apply(source, Apply(source, s, a), b))
  {
    var t := Apply(source, s, a);
    assert [a, b][1..] == [b] && [b][1..] == [];
    assert Run(source, Apply(source, t, b), [], Apply(source, t, b));
    assert Run(source, t, [b], Apply(source, t, b));
  }

  lemma RunOne<V>(source: Source<V>, s: State<V>, a: Action<V>)
    requires Enabled(source, s, a)
    ensures Run(source, s, [a], Apply(source, s, a))
  {
    assert [a][1..] == [];
  }

  /** Unless it is held, one or two steps of its own bring the pump further: past a closed branch even
      from inside a put on a full queue. */
  lemma PumpAdvances<V>(source: Source<V>, s: State<V>) returns (actions: seq<Action<V>>, t: State<V>)
    requires Good(source, s) && s.entry < |source.Entries()| && !Held(s)
    ensures ByPump(actions) && 1 <= |actions| <= 2 && Run(source, s, actions, t) && Further(s, t)
  {
    if s.at == |s.branches| {
      actions, t := [NextEntry], Apply(source, s, NextEntry);
      RunOne(source, s, NextEntry);
    } else if s.checked && Enabled(source, s, Put) {
      actions, t := [Put], Apply(source, s, Put);
      RunOne(source, s, Put);
    } else if s.checked {
      actions, t := [Timeout, CheckActive], Apply(source, Apply(source, s, Timeout), CheckActive);
      RunTwo(source, s, Timeout, CheckActive);
    } else if s.branches[s.at].active {
      actions, t := [CheckActive, Put], Apply(source, Apply(source, s, CheckActive), Put);
      RunTwo(source, s, CheckActive, Put);
    } else {
      actions, t := [CheckActive], Apply(source, s, CheckActive);
      RunOne(source, s, CheckActive);
    }
  }

  /** A held pump stays where it is. */
  lemma {:induction false} HeldStays<V>(source: Source<V>, s: State<V>, actions: seq<Action<V>>, t: State<V>)
    requires Held(s) && ByPump(actions) && Run(source, s, actions, t)
    ensures Held(t) && t.entry == s.entry && t.at == s.at
    decreases |actions|
  {
    if actions != [] {
      assert !actions[0].Act?;
      assert forall k :: 0 <= k < |actions| - 1 ==> actions[1..][k] == actions[k + 1];
      HeldStays(source, Apply(source, s, actions[0]), actions[1..], t);
    }
  }

  /** In every reachable state the pump can get further by steps of its own if and only if it is not
      done and does not stand before an open branch with a full queue. */
  lemma PumpIsHeldExactly<V(!new)>(source: Source<V>, s: State<V>)
    requires Reachable(source, s)
    ensures (exists actions, t :: ByPump(actions) && Run(source, s, actions, t) && Further(s, t))
       <==> s.entry < |source.Entries()| && !Held(s)
  {
    ReachableGood(source, s);
    if s.entry < |source.Entries()| && !Held(s) {
      var actions, t := PumpAdvances(source, s);
    } else {
      forall actions, t | ByPump(actions) && Run(source, s, actions, t) ensures !Further(s, t) {
        if Held(s) {
          HeldStays(source, s, actions, t);
        }
      }
    }
  }

  lemma {:induction false} ClosedStaysEmptyHanded<V>(source: Source<V>, s: State<V>, actions: seq<Action<V>>, t: State<V>, i: nat)
    requires Good(source, s) && Run(source, s, actions, t) && ByPump(actions) && i < |s.branches|
    requires !s.branches[i].active && !(s.checked && s.at == i)
    ensures |t.branches| == |s.branches| && t.branches[i] == s.branches[i]
    decreases |actions|
  {
    if actions != [] {
      assert !actions[0].Act?;
      StepGood(source, s, actions[0]);
      var next := Apply(source, s, actions[0]);
      assert next.branches[i] == s.branches[i] && !(next.checked && next.at == i);
      ClosedStaysEmptyHanded(source, next, actions[1..], t, i);
    }
  }

  /** A branch that was closed before the pump came to it is given nothing more. */
  lemma ClosedTakesNothing<V(!new)>(source: Source<V>, s: State<V>, actions: seq<Action<V>>, t: State<V>, i: nat)
    requires Reachable(source, s) && Run(source, s, actions, t) && ByPump(actions) && i < |s.branches|
    requires !s.branches[i].active && !(s.checked && s.at == i)
    ensures |t.branches| == |s.branches| && t.branches[i] == s.branches[i]
  {
    ReachableGood(source, s);
    ClosedStaysEmptyHanded(source, s, actions, t, i);
  }

  /** One pull on the branch it is held at lets the pump go on: there is room, or the branch is closed. */
  lemma PullReleases<V>(source: Source<V>, s: State<V>)
    requires Good(source, s) && Held(s)
    ensures Enabled(source, s, Act(s.at, Pulling))
    ensures var t := Apply(source, s, Act(s.at, Pulling));
            Good(source, t) && !Held(t) && t.entry == s.entry && t.at == s.at && |t.branches| == |s.branches|
  {
    assert BranchGood(source, s, s.at);
    StepGood(source, s, Act(s.at, Pulling));
  }

  lemma {:induction false} RunOn<V>(source: Source<V>, s: State<V>, first: seq<Action<V>>, t: State<V>,
                                    next: seq<Action<V>>, u: State<V>)
    requires Run(source, s, first, t) && Run(source, t, next, u)
    ensures Run(source, s, first + next, u)
    decreases |first|
  {
    if first == [] {
      assert first + next == next;
    } else {
      assert (first + next)[1..] == first[1..] + next;
      RunOn(source, Apply(source, s, first[0]), first[1..], t, next, u);
    }
  }

  lemma {:induction false} RunKeepsWidth<V>(source: Source<V>, s: State<V>, actions: seq<Action<V>>, t: State<V>)
    requires Run(source, s, actions, t)
    ensures |t.branches| == |s.branches|
    decreases |actions|
  {
    if actions != [] {
      RunKeepsWidth(source, Apply(source, s, actions[0]), actions[1..], t);
    }
  }

  /** Steps of the pump, and pulls on the open and full branch it stands at. */
  ghost predicate Needed<V>(source: Source<V>, s: State<V>, actions: seq<Action<V>>)
    decreases |actions|
  {
    actions == [] ||
    (&& Enabled(source, s, actions[0])
     && (actions[0].Act? ==> Held(s) && actions[0] == Act(s.at, Pulling))
     && Needed(source, Apply(source, s, actions[0]), actions[1..]))
  }

  lemma {:induction false} NeededOn<V>(source: Source<V>, s: State<V>, first: seq<Action<V>>, t: State<V>,
                                       next: seq<Action<V>>)
    requires Run(source, s, first, t) && Needed(source, s, first) && Needed(source, t, next)
    ensures Needed(source, s, first + next)
    decreases |first|
  {
    if first == [] {
      assert first + next == next;
    } else {
      assert (first + next)[1..] == first[1..] + next;
      NeededOn(source, Apply(source, s, first[0]), first[1..], t, next);
    }
  }

  lemma {:induction false} PumpStepsAreNeeded<V>(source: Source<V>, s: State<V>, actions: seq<Action<V>>, t: State<V>)
    requires ByPump(actions) && Run(source, s, actions, t)
    ensures Needed(source, s, actions)
    decreases |actions|
  {
    if actions != [] {
      assert !actions[0].Act?;
      assert forall k :: 0 <= k < |actions| - 1 ==> actions[1..][k] == actions[k + 1];
      PumpStepsAreNeeded(source, Apply(source, s, actions[0]), actions[1..], t);
    }
  }

  /** One round: released if held, the pump gets further. */
  lemma PumpRound<V>(source: Source<V>, s: State<V>) returns (actions: seq<Action<V>>, t: State<V>)
    requires Good(source, s) && s.entry < |source.Entries()|
    ensures Run(source, s, actions, t) && Needed(source, s, actions) && Further(s, t)
    ensures Good(source, t) && |t.branches| == |s.branches|
  {
    if Held(s) {
      PullReleases(source, s);
      var pull: Action<V> := Act(s.at, Pulling);
      var free := Apply(source, s, pull);
      var steps;
      steps, t := PumpAdvances(source, free);
      PumpStepsAreNeeded(source, free, steps, t);
      actions := [pull] + steps;
      assert actions[1..] == steps;
    } else {
      actions, t := PumpAdvances(source, s);
      PumpStepsAreNeeded(source, s, actions, t);
    }
    RunGood(source, s, actions, t);
    RunKeepsWidth(source, s, actions, t);
  }

  lemma {:induction false} PumpGoesOn<V>(source: Source<V>, s: State<V>) returns (actions: seq<Action<V>>, t: State<V>)
    requires Good(source, s)
    ensures Run(source, s, actions, t) && Needed(source, s, actions) && t.entry == |source.Entries()|
    decreases |source.Entries()| - s.entry, |s.branches| - s.at
  {
    if s.entry == |source.Entries()| {
      actions, t := [], s;
    } else {
      var first, u := PumpRound(source, s);
      var next;
      next, t := PumpGoesOn(source, u);
      RunOn(source, s, first, u, next, t);
      NeededOn(source, s, first, u, next);
      actions := first + next;
    }
  }

  /** From every reachable state the pump gets to its end by its own steps, if consumers pull from the
      open branches whose full queues hold it, whatever closed, terminated or abandoned branches there
      are besides. */
  lemma PumpCanFinish<V(!new)>(source: Source<V>, s: State<V>)
    requires Reachable(source, s)
    ensures exists actions, t ::
              Run(source, s, actions, t) && Needed(source, s, actions) && t.entry == |source.Entries()|
  {
    ReachableGood(source, s);
    var actions, t := PumpGoesOn(source, s);
  }

  // ---------------------------------------------------------------------------
  // A suspended pull that keeps an older failure
  // ---------------------------------------------------------------------------

  /** A consumer pulls from an empty branch, the failing source is reported to it, and before it is woken
      the branch is terminated.  It takes the older failure, and all pulls raise that one from then on. */
  lemma SuspendedPullKeepsFailure<V(!new)>(x: Error, e: Error, capacity: nat)
    requires capacity >= 2
    ensures var source: Source<V> := Source([], Some(x));
            exists s ::
              && Reachable(source, s) && |s.branches| == 1 && s.branches[0].active && s.branches[0].waiting == 1
              && var t := s.branches[0].Terminate(e);
                 CanWake(t) && t.Woken().1 == Raised(x) && t.Woken().0.Pull().1 == Raised(x)
  {
    var source: Source<V> := Source([], Some(x));
    var s0: State<V> := State(0, 0, false, [Branch([], capacity, true, None, None, [], 0, false)]);
    var s1 := Apply(source, s0, Act(0, Pulling));
    var s2 := Apply(source, s1, CheckActive);
    var s3 := Apply(source, s2, Put);
    RunTwo(source, s0, Act(0, Pulling), CheckActive);
    RunOne(source, s2, Put);
    RunOn(source, s0, [Act(0, Pulling), CheckActive], s2, [Put], s3);
    assert source.Entries()[0] == Failure(x);
    assert s3.branches[0].queue == [Failure(x)];
  }
}
