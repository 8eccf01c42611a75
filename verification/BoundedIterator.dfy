/** The stream adapters of the sync engine: `LifecycleStream`, which stays exhausted once it has ended
    or raised, and `BoundedIterator`, which prefetches from it. */
module BoundedIterators {
  import opened Wrappers

  type Error = string

  /** The outcome of one `next`. */
  datatype Event<V> = Item(value: V) | Stop | Raise(error: Error)

  /** What a well-behaved stream still delivers: items, then at most one exception, then the end. */
  datatype Rest<V> = Rest(items: seq<V>, failure: Option<Error>)

  function First<V>(r: Rest<V>): Event<V> {
    if r.items != [] then Item(r.items[0])
    else if r.failure.Some? then Raise(r.failure.value)
    else Stop
  }

  function AfterFirst<V>(r: Rest<V>): Rest<V> {
    if r.items != [] then Rest(r.items[1..], r.failure) else Rest([], None)
  }

  /** The part of a script up to its first end or exception. */
  function Until<V>(script: seq<Event<V>>): Rest<V> {
    if script == [] then Rest([], None)
    else
      match script[0]
      case Stop => Rest([], None)
      case Raise(e) => Rest([], Some(e))
      case Item(v) =>
        var rest := Until(script[1..]);
        Rest([v] + rest.items, rest.failure)
  }

  /** What is left after n calls. */
  function After<V>(r: Rest<V>, n: nat): Rest<V>
    decreases n
  {
    if n == 0 then r else After(AfterFirst(r), n - 1)
  }

  ghost predicate OnlyItems<V>(script: seq<Event<V>>, n: nat) {
    n <= |script| && forall i :: 0 <= i < n ==> script[i].Item?
  }

  lemma {:induction false} NothingLeft<V>(n: nat)
    ensures After<V>(Rest([], None), n) == Rest([], None)
  {
    if n > 0 { NothingLeft<V>(n - 1); }
  }

  /** Call n, counting from 0, gives what the script says, an item, the end or the exception, if all calls
      before it gave items; any later call gives the end. */
  lemma {:induction false} CallIsScripted<V>(script: seq<Event<V>>, n: nat)
    ensures First(After(Until(script), n)) == if n < |script| && OnlyItems(script, n) then script[n] else Stop
    decreases n
  {
    if n > 0 {
      if script != [] && script[0].Item? {
        var rest := Until(script[1..]);
        assert AfterFirst(Until(script)) == rest;
        CallIsScripted(script[1..], n - 1);
        if OnlyItems(script[1..], n - 1) {
          assert forall i :: 0 < i < n ==> script[i] == script[1..][i - 1];
        }
      } else {
        NothingLeft<V>(n - 1);
        assert AfterFirst(Until(script)) == Rest([], None);
      }
    }
  }

  /** An iterator of user code: it follows its script, which may go on after an end or an exception. */
  class Source<V> {
    const script: seq<Event<V>>
    var position: nat

    ghost predicate Valid()
      reads this
    {
      position <= |script|
    }

    constructor (script: seq<Event<V>>)
      ensures this.script == script && position == 0 && Valid()
    {
      this.script, position := script, 0;
    }

    method Next() returns (e: Event<V>)
      requires Valid()
      modifies this
      ensures Valid()
      ensures old(position) == |script| ==> e == Stop && position == |script|
      ensures old(position) < |script| ==> e == script[old(position)] && position == old(position) + 1
    {
      if position == |script| { return Stop; }
      e := script[position];
      position := position + 1;
    }
  }

  class LifecycleStream<V> {
    const it: Source<V>
    var started: bool
    var completed: bool
    var count: nat

    ghost predicate Valid()
      reads this, it
    {
      it.Valid()
    }

    ghost function Left(): Rest<V>
      requires Valid()
      reads this, it
    {
      if completed then Rest([], None) else Until(it.script[it.position..])
    }

    constructor (it: Source<V>)
      requires it.Valid()
      ensures Valid() && this.it == it && !completed && count == 0
      ensures Left() == Until(it.script[it.position..])
    {
      this.it := it;
      started, completed, count := false, false, 0;
    }

    /** One `next`, with the callbacks left out.  Once ended or failed, the stream only ends. */
    method Next() returns (e: Event<V>)
      requires Valid()
      modifies this, it
      ensures Valid()
      ensures e == First(old(Left())) && Left() == AfterFirst(old(Left()))
      ensures count == old(count) + if e.Item? then 1 else 0
      ensures completed == (old(completed) || !e.Item?)
    {
      if completed { return Stop; }
      ghost var ahead := it.script[it.position..];
      e := it.Next();
      started := true;
      if e.Item? {
        count := count + 1;
        assert ahead[1..] == it.script[it.position..];
      } else {
        completed := true;
      }
    }
  }

  function Min(a: nat, b: nat): nat {
    if a < b then a else b
  }

  /** The least multiple of m that is not below d. */
  function RoundedUp(d: nat, m: nat): nat
    requires m > 0
  {
    m * ((d + m - 1) / m)
  }

  ghost predicate Multiple(reach: nat, m: nat) {
    exists q: nat :: reach == m * q
  }

  lemma NextMultiple(reach: nat, m: nat)
    requires Multiple(reach, m)
    ensures Multiple(reach + m, m)
  {
    var q: nat :| reach == m * q;
    assert reach + m == m * (q + 1);
  }

  lemma {:induction false} Apart(m: nat, p: nat, q: nat)
    requires p < q
    ensures m * p + m <= m * q
    decreases q
  {
    if p < q - 1 {
      Apart(m, p, q - 1);
      assert m * q == m * (q - 1) + m;
    } else {
      assert q == p + 1;
    }
  }

  lemma RoundedUpTo(d: nat, m: nat, reach: nat)
    requires m > 0 && Multiple(reach, m) && reach - m < d <= reach
    ensures RoundedUp(d, m) == reach
  {
    var p: nat :| reach == m * p;
    var q := (d + m - 1) / m;
    assert m * q <= d + m - 1 < m * q + m;
    if p < q { Apart(m, p, q); }
    if q < p { Apart(m, q, p); }
  }

  /** How many of n items have been pulled when d have been handed on, each refill reaching m further. */
  ghost predicate Reached(n: nat, m: nat, delivered: nat, pulled: nat, reach: nat) {
    && delivered <= pulled == Min(n, reach) && Multiple(reach, m)
    && (delivered > 0 || pulled > 0 ==> reach - m <= delivered)
  }

  lemma RefillReaches(n: nat, m: nat, delivered: nat, reach: nat, added: nat)
    requires m > 0 && delivered <= n && Reached(n, m, delivered, delivered, reach)
    requires added == Min(n - delivered, m) && added > 0
    ensures Reached(n, m, delivered, delivered + added, reach + m)
  {
    NextMultiple(reach, m);
  }

  /** What was handed on, what is left and what has been pulled.  Kept closed, as most methods only hand
      it on. */
  ghost predicate Accounted<V>(all: seq<V>, delivered: nat, left: seq<V>, pulled: nat, m: nat, reach: nat) {
    forall k: nat {:trigger Opened(k)} :: Opened(k) ==> Accounts(all, delivered, left, pulled, m, reach)
  }

  ghost predicate Accounts<V>(all: seq<V>, delivered: nat, left: seq<V>, pulled: nat, m: nat, reach: nat) {
    delivered <= |all| && left == all[delivered..] && Reached(|all|, m, delivered, pulled, reach)
  }

  lemma OpenAccounted<V>(all: seq<V>, delivered: nat, left: seq<V>, pulled: nat, m: nat, reach: nat)
    ensures Accounted(all, delivered, left, pulled, m, reach) <==> Accounts(all, delivered, left, pulled, m, reach)
  {
    assert Opened(0);
  }

  lemma Delivering<V>(all: seq<V>, delivered: nat, left: seq<V>, pulled: nat, m: nat, reach: nat)
    requires m > 0 && left != [] && delivered < pulled && Accounted(all, delivered, left, pulled, m, reach)
    ensures Accounted(all, delivered + 1, left[1..], pulled, m, reach) && reach - m < delivered + 1
  {
    OpenAccounted(all, delivered, left, pulled, m, reach);
    OpenAccounted(all, delivered + 1, left[1..], pulled, m, reach);
  }

  lemma Refilling<V>(all: seq<V>, delivered: nat, left: seq<V>, m: nat, reach: nat, added: nat)
    requires m > 0 && Accounted(all, delivered, left, delivered, m, reach)
    requires added == Min(|left|, m) && added > 0
    ensures Accounted(all, delivered, left, delivered + added, m, reach + m)
  {
    OpenAccounted(all, delivered, left, delivered, m, reach);
    OpenAccounted(all, delivered, left, delivered + added, m, reach + m);
    RefillReaches(|all|, m, delivered, reach, added);
  }

  class BoundedIterator<V> {
    const source: LifecycleStream<V>
    const maxsize: nat
    var buffer: seq<V>
    var exhausted: bool
    var pendingException: Option<Error>
    /** What the stream held at the start, how much was handed on, and how far the refills reach. */
    ghost const all: Rest<V>
    ghost var delivered: nat
    ghost var reach: nat

    /** Between two calls, a refill has been used. */
    ghost predicate Valid()
      reads this, source, source.it
    {
      Filled() && (delivered > 0 ==> reach - maxsize < delivered)
    }

    ghost predicate Filled()
      reads this, source, source.it
    {
      && source.Valid() && maxsize >= 1
      && (exhausted || pendingException.Some? ==> source.Left() == Rest([], None))
      && Accounted(all.items, delivered, Left().items, Pulled(), maxsize, reach)
    }

    /** What the consumer still gets. */
    ghost function Left(): Rest<V>
      requires source.Valid()
      reads this, source, source.it
    {
      Rest(buffer + source.Left().items,
           if pendingException.Some? then pendingException else source.Left().failure)
    }

    ghost function Pulled(): nat
      reads this
    {
      delivered + |buffer|
    }

    constructor (source: LifecycleStream<V>, maxsize: nat)
      requires source.Valid() && maxsize >= 1
      ensures Valid() && this.source == source && this.maxsize == maxsize
      ensures Left() == all == source.Left() && delivered == 0 && Pulled() == 0
    {
      this.source, this.maxsize := source, maxsize;
      buffer, exhausted, pendingException := [], false, None;
      all, delivered, reach := source.Left(), 0, 0;
      new;
      assert 0 == maxsize * 0;
      OpenAccounted(all.items, 0, Left().items, 0, maxsize, 0);
    }

    method Fill()
      requires Valid() && buffer == []
      modifies this, source, source.it
      ensures Filled() && Left() == old(Left()) && delivered == old(delivered)
      ensures buffer == [] ==> reach == old(reach) && source.Left() == Rest([], None)
    {
      PullItems();
      if buffer != [] {
        Refilling(all.items, delivered, Left().items, maxsize, reach, |buffer|);
        reach := reach + maxsize;
      }
    }

    /** The loop of `_fill`: it stops at `maxsize` items, at the end, or at an exception. */
    method PullItems()
      requires source.Valid() && buffer == []
      requires exhausted || pendingException.Some? ==> source.Left() == Rest([], None)
      modifies `buffer, `exhausted, `pendingException, source, source.it
      ensures source.Valid() && Left() == old(Left()) && |buffer| == Min(|old(Left()).items|, maxsize)
      ensures exhausted || pendingException.Some? ==> source.Left() == Rest([], None)
      ensures |buffer| < maxsize ==> source.Left() == Rest([], None)
    {
      while |buffer| < maxsize && !exhausted
        invariant source.Valid() && |buffer| <= maxsize && Left() == old(Left())
        invariant exhausted || pendingException.Some? ==> source.Left() == Rest([], None)
        decreases maxsize - |buffer|
      {
        ghost var left := source.Left();
        var e := source.Next();
        match e {
          case Stop =>
            exhausted := true;
            break;
          case Raise(error) =>
            pendingException := Some(error);
            break;
          case Item(v) =>
            assert buffer + left.items == (buffer + [v]) + left.items[1..];
            buffer := buffer + [v];
        }
      }
    }

    method Pop() returns (e: Event<V>)
      requires Filled() && buffer != []
      modifies `buffer, `delivered
      ensures Valid() && delivered == old(delivered) + 1 && Pulled() == old(Pulled())
      ensures e == First(old(Left())) && e.Item? && Left() == AfterFirst(old(Left()))
    {
      ghost var left := Left().items;
      Delivering(all.items, delivered, left, Pulled(), maxsize, reach);
      e := Item(buffer[0]);
      assert left[1..] == buffer[1..] + source.Left().items;
      buffer := buffer[1..];
      delivered := delivered + 1;
    }

    method Next() returns (e: Event<V>)
      requires Valid()
      modifies this, source, source.it
      ensures Valid()
      ensures e == First(old(Left())) && Left() == AfterFirst(old(Left()))
      ensures delivered == old(delivered) + if e.Item? then 1 else 0
    {
      if buffer == [] && !exhausted {
        Fill();
      }
      if pendingException.Some? && buffer == [] {
        e := Raise(pendingException.value);
        pendingException := None;
        return;
      }
      if buffer == [] {
        return Stop;
      }
      e := Pop();
    }
  
    /** What the next call delivers. */
    lemma NextIs()
      requires Valid()
      ensures First(Left()) == if delivered < |all.items| then Item(all.items[delivered])
                               else if Left().failure.Some? then Raise(Left().failure.value)
                               else Stop
      ensures AfterFirst(Left()).failure == if delivered < |all.items| then Left().failure else None
      ensures delivered <= |all.items| && Left().items == all.items[delivered..]
    {
      OpenAccounted(all.items, delivered, Left().items, Pulled(), maxsize, reach);
    }

    /** `Next` in terms of what the stream held at the start. */
    method NextOf(ghost failure: Option<Error>) returns (e: Event<V>)
      requires Valid() && Left().failure == failure
      modifies this, source, source.it
      ensures Valid() && delivered <= |all.items|
      ensures old(delivered) < |all.items| ==>
                e == Item(all.items[old(delivered)]) && delivered == old(delivered) + 1 && Left().failure == failure
      ensures old(delivered) >= |all.items| ==>
                e == (if failure.Some? then Raise(failure.value) else Stop) && Left() == Rest([], None)
                && delivered == old(delivered)
    {
      NextIs();
      e := Next();
      NextIs();
    }

    /** Consuming the iterator to its end gives the items and then the exception of the stream below,
        whatever `maxsize` is. */
    method Drain() returns (items: seq<V>, failure: Option<Error>)
      requires Valid()
      modifies this, source, source.it
      ensures Valid() && items == old(Left()).items && failure == old(Left()).failure
      ensures Left() == Rest([], None) && delivered == |all.items|
    {
      items := [];
      ghost var start, fails := delivered, Left().failure;
      NextIs();
      while true
        invariant Valid() && start <= delivered <= |all.items| && |items| == delivered - start
        invariant forall k :: 0 <= k < |items| ==> items[k] == all.items[start + k]
        invariant Left().failure == fails
        decreases |all.items| - delivered
      {
        var e := NextOf(fails);
        match e {
          case Stop => return items, None;
          case Raise(error) => return items, Some(error);
          case Item(v) => items := items + [v];
        }
      }
    }

    /** With n items in the stream and d >= 1 of them handed on, exactly min(n, m * ceil(d / m)) have
        been pulled. */
    lemma LookAheadIsExact()
      requires Valid() && delivered > 0
      ensures Pulled() == Min(|all.items|, RoundedUp(delivered, maxsize))
    {
      OpenAccounted(all.items, delivered, Left().items, Pulled(), maxsize, reach);
      RoundedUpTo(delivered, maxsize, reach);
    }
  }
}
