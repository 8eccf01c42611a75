/** Consumers of one fan-out that read all of its branches from a single thread: in lockstep
    (one item from each branch in turn, as `zip` does) or sequentially (one branch after the other).

    Which of them can always finish is decided by how the bounded queues hold back the pump. */
module FanoutReaders {
  import opened Fanout

  datatype Policy = Lockstep | Sequential

  /** The branches in the order in which the reader takes them. */
  ghost predicate IsOrder(c: Config, order: seq<nat>) {
    && |order| == c.width
    && (forall i :: 0 <= i < |order| ==> order[i] < c.width)
    && (forall i, k :: 0 <= i < k < |order| ==> order[i] != order[k])
    && (forall b :: 0 <= b < c.width ==> b in order)
  }

  predicate Open(s: State, b: nat) {
    b < |s.branches| && s.branches[b].closed.None?
  }

  function Reads(s: State, b: nat): nat
    requires b < |s.branches|
  {
    |s.branches[b].received|
  }

  /** The reader's next branch.  Taking the open branches in turn means taking the one read least
      often, the earliest one among equals. */
  ghost predicate Turn(policy: Policy, order: seq<nat>, s: State, i: nat) {
    && i < |order| && Open(s, order[i])
    && forall k :: 0 <= k < |order| && Open(s, order[k]) ==>
        match policy
        case Lockstep => Reads(s, order[i]) < Reads(s, order[k]) || (Reads(s, order[i]) == Reads(s, order[k]) && i <= k)
        case Sequential => i <= k
  }

  ghost predicate Allowed(policy: Policy, order: seq<nat>, s: State, a: Action) {
    match a
    case Start => true
    case PumpStep => true
    case Leave(_) => true
    case Pull(b) => exists i :: 0 <= i < |order| && order[i] == b && Turn(policy, order, s, i)
    case _ => false
  }

  ghost predicate ReaderRun(policy: Policy, c: Config, order: seq<nat>, s: State, actions: seq<Action>, t: State)
    decreases |actions|
  {
    if actions == [] then s == t
    else
      && Enabled(c, s, actions[0]) && Allowed(policy, order, s, actions[0])
      && ReaderRun(policy, c, order, Apply(c, s, actions[0]), actions[1..], t)
  }

  ghost predicate ReaderReachable(policy: Policy, c: Config, order: seq<nat>, t: State) {
    exists s, actions :: Init(c, s) && ReaderRun(policy, c, order, s, actions, t)
  }

  ghost predicate Finished(s: State) {
    forall b :: 0 <= b < |s.branches| ==> !Open(s, b)
  }

  ghost predicate CanFinish(policy: Policy, c: Config, order: seq<nat>, s: State) {
    exists actions, t :: ReaderRun(policy, c, order, s, actions, t) && Finished(t)
  }

  // ---------------------------------------------------------------------------
  // What the reader's discipline keeps
  // ---------------------------------------------------------------------------

  /** For a branch `x` that the reader takes before `y`. */
  ghost predicate EvenPair(policy: Policy, s: State, x: nat, y: nat) {
    Open(s, x) && y < |s.branches| ==>
      match policy
      case Lockstep => Open(s, y) ==> 0 <= Reads(s, x) - Reads(s, y) <= 1
      case Sequential => Open(s, y) && Reads(s, y) == 0
  }

  ghost predicate Even(policy: Policy, order: seq<nat>, s: State) {
    forall i, k :: 0 <= i < k < |order| ==> EvenPair(policy, s, order[i], order[k])
  }

  ghost predicate ReaderGood(policy: Policy, c: Config, order: seq<nat>, s: State) {
    Good(c, s) && s.aborters == [] && IsOrder(c, order) && Even(policy, order, s)
  }

  /** Only a pull changes what has been read from a branch or closes it. */
  lemma OthersKeepReads(policy: Policy, c: Config, order: seq<nat>, s: State, a: Action, b: nat)
    requires Shape(c, s) && Enabled(c, s, a) && Allowed(policy, order, s, a) && b < c.width && a != Pull(b)
    ensures |Apply(c, s, a).branches| == c.width
    ensures Open(Apply(c, s, a), b) == Open(s, b) && Reads(Apply(c, s, a), b) == Reads(s, b)
  {
    if a.PumpStep? && s.pump.Finishing? {
      WriterStepShape(c, s.stop, s.branches[s.pump.writer.at], s.pump.writer);
    }
  }

  lemma EvenPairStep(policy: Policy, c: Config, order: seq<nat>, s: State, a: Action, i: nat, k: nat)
    requires Shape(c, s) && IsOrder(c, order) && Enabled(c, s, a) && Allowed(policy, order, s, a)
    requires i < k < |order| && EvenPair(policy, s, order[i], order[k])
    ensures EvenPair(policy, Apply(c, s, a), order[i], order[k])
  {
    var x, y := order[i], order[k];
    if a != Pull(x) { OthersKeepReads(policy, c, order, s, a, x); }
    if a != Pull(y) { OthersKeepReads(policy, c, order, s, a, y); }
    if a.Pull? {
      var t :| 0 <= t < |order| && order[t] == a.b && Turn(policy, order, s, t);
    }
  }

  lemma EvenStep(policy: Policy, c: Config, order: seq<nat>, s: State, a: Action)
    requires Shape(c, s) && IsOrder(c, order) && Enabled(c, s, a) && Allowed(policy, order, s, a)
    requires Even(policy, order, s)
    ensures Even(policy, order, Apply(c, s, a))
  {
    forall i, k | 0 <= i < k < |order| ensures EvenPair(policy, Apply(c, s, a), order[i], order[k]) {
      EvenPairStep(policy, c, order, s, a, i, k);
    }
  }

  lemma {:induction false} ReaderRunGood(policy: Policy, c: Config, order: seq<nat>,
                                         s: State, actions: seq<Action>, t: State)
    requires ReaderGood(policy, c, order, s) && ReaderRun(policy, c, order, s, actions, t)
    ensures ReaderGood(policy, c, order, t)
    decreases |actions|
  {
    if actions != [] {
      StepGood(c, s, actions[0]);
      EvenStep(policy, c, order, s, actions[0]);
      ReaderRunGood(policy, c, order, Apply(c, s, actions[0]), actions[1..], t);
    }
  }

  lemma ReaderReachableGood(policy: Policy, c: Config, order: seq<nat>, t: State)
    requires IsOrder(c, order) && ReaderReachable(policy, c, order, t)
    ensures ReaderGood(policy, c, order, t)
  {
    var s, actions :| Init(c, s) && ReaderRun(policy, c, order, s, actions, t);
    InitGood(c, s);
    ReaderRunGood(policy, c, order, s, actions, t);
  }

  // ---------------------------------------------------------------------------
  // Progress
  // ---------------------------------------------------------------------------

  function QueuedIn(branches: seq<Branch>): nat {
    if branches == [] then 0
    else |branches[0].queue| + (if branches[0].active then 1 else 0) + QueuedIn(branches[1..])
  }

  lemma QueuedUpdate(branches: seq<Branch>, b: nat, br: Branch)
    requires b < |branches|
    ensures QueuedIn(branches[b := br]) - QueuedIn(branches)
         == |br.queue| - |branches[b].queue| + (if br.active then 1 else 0) - (if branches[b].active then 1 else 0)
  {
    if b > 0 {
      assert branches[b := br][1..] == branches[1..][b - 1 := br];
      QueuedUpdate(branches[1..], b - 1, br);
    } else {
      assert branches[b := br][1..] == branches[1..];
    }
  }

  function Rest(c: Config, pulled: nat): nat {
    (if pulled < c.items then (c.items - pulled) * (2 * c.width + 3) else 0) + 2 * c.width + 1
  }

  /** Puts, pulls and departures still to come; a put that times out changes nothing. */
  function Work(c: Config, s: State): nat {
    QueuedIn(s.branches) +
    match s.pump
    case NotStarted => 1 + Rest(c, s.pulled)
    case Pulling => Rest(c, s.pulled)
    case Pulled => 2 * c.width + 2 + Rest(c, s.pulled)
    case Offering(b, _) => (if b <= c.width then 2 * (c.width - b) else 0) + 1 + Rest(c, s.pulled)
    case Finishing(w) => if w.at <= c.width then 2 * (c.width - w.at) else 0
  }

  /** Steps inside one attempt to put. */
  function Phase(c: Config, s: State): nat {
    match s.pump
    case Offering(b, phase) =>
      if b < |s.branches| && !s.branches[b].active
      then (match phase case Offer => 3 case Loop => 2 case Guard => 1)
      else (match phase case Loop => 3 case Guard => 2 case Offer => 1)
    case Finishing(w) =>
      if w.at < |s.branches| && !s.branches[w.at].active
      then (match w.phase case Put => 3 case Full => 2 case Check => 1)
      else if w.at < |s.branches| && |s.branches[w.at].queue| >= c.cap
      then (match w.phase case Check => 6 case Put => 5 case Full => 4)
      else (match w.phase case Full => 3 case Check => 2 case Put => 1)
    case _ => 0
  }

  function Rank(c: Config, s: State): nat {
    7 * Work(c, s) + Phase(c, s)
  }

  /** The pump can only wait for a reader: the queue it has to put into is full. */
  predicate Blocked(c: Config, s: State) {
    match s.pump
    case Offering(b, _) => b < |s.branches| && s.branches[b].active && |s.branches[b].queue| >= c.cap
    case Finishing(w) =>
      && w.at < |s.branches| && s.branches[w.at].active && |s.branches[w.at].queue| >= c.cap
      && w.marker == Eof && !s.stop
    case _ => false
  }

  predicate PumpDone(s: State) {
    s.pump.Finishing? && s.pump.writer.at == |s.branches|
  }

  lemma SourceAdvances(c: Config, s: State)
    requires Shape(c, s) && Enabled(c, s, PumpStep) && (s.pump.Pulling? || s.pump.Pulled?)
    ensures Work(c, PumpApply(c, s)) < Work(c, s) && Rank(c, PumpApply(c, s)) < Rank(c, s)
  {
    if s.pump.Pulling? && s.pulled < c.items {
      assert (c.items - s.pulled) * (2 * c.width + 3) == (c.items - s.pulled - 1) * (2 * c.width + 3) + (2 * c.width + 3);
    }
  }

  lemma OfferAdvances(c: Config, s: State)
    requires Shape(c, s) && Enabled(c, s, PumpStep) && s.pump.Offering? && !s.stop && !Blocked(c, s)
    ensures Rank(c, PumpApply(c, s)) < Rank(c, s)
  {
    var b := s.pump.at;
    if s.pump.phase == Offer {
      QueuedUpdate(s.branches, b, s.branches[b].(queue := s.branches[b].queue + [Data(s.pulled - 1)]));
    }
  }

  lemma FinishAdvances(c: Config, s: State)
    requires Shape(c, s) && Enabled(c, s, PumpStep) && s.pump.Finishing? && !Blocked(c, s)
    ensures Rank(c, PumpApply(c, s)) < Rank(c, s)
  {
    var w := s.pump.writer;
    var br := s.branches[w.at];
    var (br', w') := WriterStep(c, s.stop, br, w);
    QueuedUpdate(s.branches, w.at, br');
    if w'.at == w.at && br' == br {
      assert PumpApply(c, s).branches == s.branches;
    } else {
      assert Work(c, PumpApply(c, s)) < Work(c, s);
    }
  }

  lemma PumpAdvances(c: Config, s: State)
    requires Good(c, s) && s.aborters == [] && !NoneActive(s.branches) && !Blocked(c, s) && !PumpDone(s)
    requires forall b :: 0 <= b < |s.branches| ==> s.branches[b].active ==> s.branches[b].closed.None?
    ensures var a := if s.pump.NotStarted? then Start else PumpStep;
            Enabled(c, s, a) && Rank(c, Apply(c, s, a)) < Rank(c, s)
  {
    match s.pump
    case NotStarted =>
    case Offering(_, _) => OfferAdvances(c, s);
    case Finishing(w) => FinishAdvances(c, s);
    case _ => SourceAdvances(c, s);
  }

  /** The reader takes an item or a marker, or a closed branch leaves. */
  lemma ReaderAdvances(c: Config, s: State, a: Action)
    requires Shape(c, s) && Enabled(c, s, a) && (a.Pull? || a.Leave?)
    ensures Rank(c, Apply(c, s, a)) < Rank(c, s)
  {
    var br := s.branches[a.b];
    QueuedUpdate(s.branches, a.b, if a.Pull? then PullFrom(br) else br.(active := false));
  }

  lemma OfferWork(c: Config, s: State)
    requires Shape(c, s) && Enabled(c, s, PumpStep) && s.pump.Offering?
    ensures Work(c, PumpApply(c, s)) < Work(c, s)
         || (Work(c, PumpApply(c, s)) == Work(c, s) && PumpApply(c, s).branches == s.branches)
    ensures PumpApply(c, s).pulled == s.pulled
  {
    var b := s.pump.at;
    if s.pump.phase == Offer {
      QueuedUpdate(s.branches, b, s.branches[b].(queue := s.branches[b].queue + [Data(s.pulled - 1)]));
    }
  }

  lemma FinishWork(c: Config, s: State)
    requires Shape(c, s) && Enabled(c, s, PumpStep) && s.pump.Finishing?
    ensures Work(c, PumpApply(c, s)) < Work(c, s)
         || (Work(c, PumpApply(c, s)) == Work(c, s) && PumpApply(c, s).branches == s.branches)
    ensures PumpApply(c, s).pulled == s.pulled
  {
    var w := s.pump.writer;
    var br := s.branches[w.at];
    var br' := WriterStep(c, s.stop, br, w).0;
    QueuedUpdate(s.branches, w.at, br');
    assert br'.queue == br.queue ==> br' == br;
    assert s.branches[w.at := br] == s.branches;
  }

  lemma ReaderWork(c: Config, s: State, a: Action)
    requires Shape(c, s) && Enabled(c, s, a) && (a.Pull? || a.Leave?)
    ensures Work(c, Apply(c, s, a)) < Work(c, s)
  {
    var br := s.branches[a.b];
    QueuedUpdate(s.branches, a.b, if a.Pull? then PullFrom(br) else br.(active := false));
  }

  lemma StartWork(c: Config, s: State)
    requires Shape(c, s) && Enabled(c, s, Start)
    ensures Work(c, Apply(c, s, Start)) < Work(c, s)
         || (&& Work(c, Apply(c, s, Start)) == Work(c, s)
             && Apply(c, s, Start).branches == s.branches && Apply(c, s, Start).pulled == s.pulled)
  {
  }

  /** Every step that moves an item, a marker or a branch uses up work; the others move nothing.
      So in every run only finitely many steps are anything but waiting. */
  lemma WorkIsSpent(policy: Policy, c: Config, order: seq<nat>, s: State, a: Action)
    requires ReaderGood(policy, c, order, s) && Enabled(c, s, a) && Allowed(policy, order, s, a)
    ensures Work(c, Apply(c, s, a)) < Work(c, s)
         || (&& Work(c, Apply(c, s, a)) == Work(c, s)
             && Apply(c, s, a).branches == s.branches && Apply(c, s, a).pulled == s.pulled)
  {
    if a.PumpStep? {
      if s.pump.Offering? { OfferWork(c, s); }
      else if s.pump.Finishing? { FinishWork(c, s); }
      else { SourceAdvances(c, s); }
    } else if a.Start? {
      StartWork(c, s);
    } else {
      ReaderWork(c, s, a);
    }
  }

  // ---------------------------------------------------------------------------
  // Who can be stuck
  // ---------------------------------------------------------------------------

  /** The reader waits on an empty queue while the pump waits on a full one. */
  ghost predicate Stuck(policy: Policy, c: Config, order: seq<nat>, s: State, i: nat) {
    && Turn(policy, order, s, i)
    && s.branches[order[i]].queue == []
    && (Blocked(c, s) || PumpDone(s))
    && forall b :: 0 <= b < |s.branches| ==> s.branches[b].active ==> s.branches[b].closed.None?
  }

  lemma SomeTurn(policy: Policy, c: Config, order: seq<nat>, s: State, n: nat) returns (i: nat)
    requires IsOrder(c, order) && Shape(c, s) && n <= |order|
    requires exists k :: 0 <= k < n && Open(s, order[k])
    ensures i < n && Open(s, order[i])
    ensures forall k :: 0 <= k < n && Open(s, order[k]) ==>
        match policy
        case Lockstep => Reads(s, order[i]) < Reads(s, order[k]) || (Reads(s, order[i]) == Reads(s, order[k]) && i <= k)
        case Sequential => i <= k
  {
    if exists k :: 0 <= k < n - 1 && Open(s, order[k]) {
      i := SomeTurn(policy, c, order, s, n - 1);
      if policy.Lockstep? && Open(s, order[n - 1]) && Reads(s, order[n - 1]) < Reads(s, order[i]) {
        i := n - 1;
      }
    } else {
      i := n - 1;
    }
  }

  lemma TurnAdvance(policy: Policy, c: Config, order: seq<nat>, s: State, i: nat) returns (a: Action)
    requires ReaderGood(policy, c, order, s) && Turn(policy, order, s, i) && !Stuck(policy, c, order, s, i)
    requires forall b :: 0 <= b < |s.branches| ==> s.branches[b].active ==> s.branches[b].closed.None?
    ensures Enabled(c, s, a) && Allowed(policy, order, s, a) && Rank(c, Apply(c, s, a)) < Rank(c, s)
  {
    if s.branches[order[i]].queue != [] {
      a := Pull(order[i]);
      ReaderAdvances(c, s, a);
    } else {
      assert s.branches[order[i]].active;
      PumpAdvances(c, s);
      a := if s.pump.NotStarted? then Start else PumpStep;
    }
  }

  /** Unless the reader is stuck, some allowed step brings the end nearer. */
  lemma Advance(policy: Policy, c: Config, order: seq<nat>, s: State) returns (a: Action)
    requires ReaderGood(policy, c, order, s) && !Finished(s)
    requires forall i :: !Stuck(policy, c, order, s, i)
    ensures Enabled(c, s, a) && Allowed(policy, order, s, a) && Rank(c, Apply(c, s, a)) < Rank(c, s)
  {
    if b :| 0 <= b < |s.branches| && s.branches[b].active && s.branches[b].closed.Some? {
      a := Leave(b);
      ReaderAdvances(c, s, a);
    } else {
      var b :| 0 <= b < |s.branches| && Open(s, b);
      assert b in order;
      var i := SomeTurn(policy, c, order, s, |order|);
      assert Turn(policy, order, s, i);
      a := TurnAdvance(policy, c, order, s, i);
    }
  }

  lemma BlockedCounts(c: Config, s: State, x: nat)
    requires Good(c, s) && s.aborters == [] && x < c.width && s.branches[x].closed.None? && Blocked(c, s)
    requires x == if s.pump.Offering? then s.pump.at else s.pump.writer.at
    ensures Reads(s, x) + c.cap == if s.pump.Offering? then s.pulled - 1 else c.items
    ensures s.pump.Finishing? ==> c.ending.Ends? && s.pulled == c.items
  {
    assert s.branches[x].active && Lossless(c, s, x);
    PositionsLength(s.branches[x].queue);
  }

  lemma DoneIsMarked(c: Config, s: State, b: nat)
    requires Good(c, s) && s.aborters == [] && b < c.width && s.branches[b].closed.None? && PumpDone(s)
    ensures s.branches[b].queue != []
  {
    assert Lossless(c, s, b);
  }

  lemma EmptyCounts(c: Config, s: State, b: nat)
    requires Good(c, s) && s.aborters == [] && b < c.width && s.branches[b].closed.None? && s.branches[b].queue == []
    ensures s.pump.Finishing? ==> s.pump.writer.at <= b
    ensures s.pump.Offering? ==> Reads(s, b) >= s.pulled - 1
    ensures s.pump.Finishing? && s.pump.writer.at != b ==> Reads(s, b) == s.pulled
  {
    assert Lossless(c, s, b);
    assert Contents(s.branches[b]) == s.branches[b].received;
  }

  lemma LockstepNotStuck(c: Config, order: seq<nat>, s: State, i: nat)
    requires ReaderGood(Lockstep, c, order, s)
    ensures !Stuck(Lockstep, c, order, s, i)
  {
    if Stuck(Lockstep, c, order, s, i) {
      var b := order[i];
      if PumpDone(s) {
        DoneIsMarked(c, s, b);
      } else {
        var x := if s.pump.Offering? then s.pump.at else s.pump.writer.at;
        assert x in order;
        BlockedCounts(c, s, x);
        EmptyCounts(c, s, b);
      }
    }
  }

  /** When the unread branches have room for the whole source and, if they are filled to the brim
      by it, the reader takes the branches in the order in which the pump ends them. */
  ghost predicate RoomForAll(c: Config, order: seq<nat>) {
    || c.width <= 1
    || c.items < c.cap
    || (c.items == c.cap && (c.ending.Fails? || forall i, k :: 0 <= i < k < |order| ==> order[i] < order[k]))
  }

  lemma SequentialNotStuck(c: Config, order: seq<nat>, s: State, i: nat)
    requires ReaderGood(Sequential, c, order, s) && RoomForAll(c, order)
    ensures !Stuck(Sequential, c, order, s, i)
  {
    if Stuck(Sequential, c, order, s, i) {
      var b := order[i];
      if PumpDone(s) {
        DoneIsMarked(c, s, b);
      } else {
        var x := if s.pump.Offering? then s.pump.at else s.pump.writer.at;
        assert x in order;
        BlockedCounts(c, s, x);
        EmptyCounts(c, s, b);
      }
    }
  }

  ghost predicate NeverStuck(policy: Policy, c: Config, order: seq<nat>) {
    policy.Lockstep? || RoomForAll(c, order)
  }

  lemma {:induction false} Finishes(policy: Policy, c: Config, order: seq<nat>, s: State)
    requires ReaderGood(policy, c, order, s) && NeverStuck(policy, c, order)
    ensures CanFinish(policy, c, order, s)
    decreases Rank(c, s)
  {
    if Finished(s) {
      assert ReaderRun(policy, c, order, s, [], s);
    } else {
      forall i ensures !Stuck(policy, c, order, s, i) {
        if policy.Lockstep? { LockstepNotStuck(c, order, s, i); } else { SequentialNotStuck(c, order, s, i); }
      }
      var a := Advance(policy, c, order, s);
      var s' := Apply(c, s, a);
      StepGood(c, s, a);
      EvenStep(policy, c, order, s, a);
      Finishes(policy, c, order, s');
      var actions, t :| ReaderRun(policy, c, order, s', actions, t) && Finished(t);
      assert ([a] + actions)[1..] == actions;
      assert ReaderRun(policy, c, order, s, [a] + actions, t);
    }
  }

  // --- A sequential reader without that room -----------------------------------

  /** `y` is read before `x` although `x` cannot take what the pump owes it before it ends `y`. */
  ghost predicate Starved(c: Config, order: seq<nat>, i: nat, k: nat) {
    && i < k < |order|
    && (c.items > c.cap || (c.items == c.cap && c.ending.Ends? && order[k] < order[i]))
  }

  /** While `x` is unread and short of room, no marker reaches `y`. */
  lemma StarvedQueue(c: Config, s: State, y: nat, x: nat)
    requires Good(c, s) && s.aborters == [] && x < c.width && y < c.width && x != y
    requires s.branches[x].closed.None? && s.branches[y].closed.None? && s.branches[x].received == []
    requires c.items > c.cap || (c.items == c.cap && c.ending.Ends? && x < y)
    ensures !HasMarker(s.branches[y].queue)
  {
    assert s.branches[x].active;
    assert Lossless(c, s, x) && Lossless(c, s, y);
    assert Contents(s.branches[x]) == Positions(s.branches[x].queue);
    PositionsLength(s.branches[x].queue);
    if s.pump.Finishing? && x < s.pump.writer.at {
      assert HasMarker(s.branches[x].queue);
    }
  }

  lemma StarvedStep(c: Config, order: seq<nat>, i: nat, k: nat, s: State, a: Action)
    requires ReaderGood(Sequential, c, order, s) && Starved(c, order, i, k)
    requires Open(s, order[i]) && Enabled(c, s, a) && Allowed(Sequential, order, s, a)
    ensures Open(Apply(c, s, a), order[i])
  {
    var y := order[i];
    if a == Pull(y) {
      StarvedQueue(c, s, y, order[k]);
      assert s.branches[y].queue[0].Data?;
    } else if a.PumpStep? && s.pump.Finishing? {
      WriterStepShape(c, s.stop, s.branches[s.pump.writer.at], s.pump.writer);
    }
  }

  lemma {:induction false} StarvedRun(c: Config, order: seq<nat>, i: nat, k: nat, s: State, actions: seq<Action>, t: State)
    requires ReaderGood(Sequential, c, order, s) && Starved(c, order, i, k) && Open(s, order[i])
    requires ReaderRun(Sequential, c, order, s, actions, t)
    ensures Open(t, order[i])
    decreases |actions|
  {
    if actions != [] {
      StepGood(c, s, actions[0]);
      EvenStep(Sequential, c, order, s, actions[0]);
      StarvedStep(c, order, i, k, s, actions[0]);
      StarvedRun(c, order, i, k, Apply(c, s, actions[0]), actions[1..], t);
    }
  }

  // ---------------------------------------------------------------------------
  // Theorems
  // ---------------------------------------------------------------------------

  /** Lockstep readers never deadlock: for every source length, ending, bound, number of branches
      and order of the branches, a lockstep reader can always go on to the end of all branches. */
  lemma LockstepAlwaysFinishes(c: Config, order: seq<nat>, s: State)
    requires IsOrder(c, order) && ReaderReachable(Lockstep, c, order, s)
    ensures CanFinish(Lockstep, c, order, s)
  {
    ReaderReachableGood(Lockstep, c, order, s);
    Finishes(Lockstep, c, order, s);
  }

  /** Reading the branches one after the other: either every run can go on to the end, or none
      ever ends, and the bound, the source and the order of the branches decide which. */
  lemma SequentialFinishesExactly(c: Config, order: seq<nat>, s: State)
    requires IsOrder(c, order) && ReaderReachable(Sequential, c, order, s)
    ensures CanFinish(Sequential, c, order, s) <==> RoomForAll(c, order)
  {
    ReaderReachableGood(Sequential, c, order, s);
    if RoomForAll(c, order) {
      Finishes(Sequential, c, order, s);
    } else {
      var i, k := 0, 1;
      if c.items == c.cap {
        i, k :| 0 <= i < k < |order| && order[k] <= order[i];
      }
      assert Starved(c, order, i, k);
      var s0, prefix :| Init(c, s0) && ReaderRun(Sequential, c, order, s0, prefix, s);
      InitGood(c, s0);
      StarvedRun(c, order, i, k, s0, prefix, s);
      forall actions, t | ReaderRun(Sequential, c, order, s, actions, t) ensures !Finished(t) {
        StarvedRun(c, order, i, k, s, actions, t);
      }
    }
  }
}
