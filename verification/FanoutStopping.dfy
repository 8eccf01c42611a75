/** What the stop flag of the fan-out does: nothing more is taken from the source, and the pump and all
    aborters come to their ends without any reader. */
module FanoutStopping {
  import opened Wrappers
  import opened Fanout
  import R = FanoutReaders

  // ---------------------------------------------------------------------------
  // The source is left alone
  // ---------------------------------------------------------------------------

  /** Where the pump takes one more item before it sees the stop flag. */
  predicate StillPulls(s: State) {
    s.pump.Pulling? || s.pump.Offering?
  }

  lemma StoppedPull(c: Config, s: State, a: Action)
    requires s.stop && Enabled(c, s, a)
    ensures var t := Apply(c, s, a);
      && t.stop
      && (t.pulled == s.pulled || (t.pulled == s.pulled + 1 && s.pump.Pulling? && !StillPulls(t)))
      && (StillPulls(t) ==> StillPulls(s))
  {
  }

  lemma {:induction false} PullsAfterStop(c: Config, s: State, actions: seq<Action>, t: State)
    requires s.stop && Run(c, s, actions, t)
    ensures t.stop && (StillPulls(t) ==> StillPulls(s))
    ensures s.pulled <= t.pulled <= s.pulled + (if StillPulls(s) && !StillPulls(t) then 1 else 0)
    decreases |actions|
  {
    if actions != [] {
      StoppedPull(c, s, actions[0]);
      PullsAfterStop(c, Apply(c, s, actions[0]), actions[1..], t);
    }
  }

  // ---------------------------------------------------------------------------
  // All writers come to their ends
  // ---------------------------------------------------------------------------

  /** Steps a writer needs at most before it is through with its branch, if nobody fills the queue. */
  function StepsLeft(c: Config, branches: seq<Branch>, w: Writer): nat {
    if w.at >= |branches| then 0
    else if |branches[w.at].queue| >= c.cap then (match w.phase case Check => 5 case Put => 4 case Full => 3)
    else match w.phase case Check => 2 case Put => 1 case Full => 3
  }

  /** `turn` outweighs everything that can happen within the turn of one writer at one branch. */
  function WriterLeft(c: Config, branches: seq<Branch>, turn: nat, w: Writer): nat {
    (if w.at <= |branches| then turn * (|branches| - w.at) else 0) + StepsLeft(c, branches, w)
  }

  function WritersLeft(c: Config, branches: seq<Branch>, turn: nat, ws: seq<Writer>): nat {
    if ws == [] then 0 else WriterLeft(c, branches, turn, ws[0]) + WritersLeft(c, branches, turn, ws[1..])
  }

  function PumpTurns(s: State): nat {
    match s.pump
    case NotStarted => 0
    case Pulling => |s.branches| + 2
    case Pulled => |s.branches| + 1
    case Offering(b, _) => (if b <= |s.branches| then |s.branches| - b else 0) + |s.branches| + 3
    case Finishing(w) => if w.at <= |s.branches| then |s.branches| - w.at else 0
  }

  function PumpSteps(c: Config, s: State): nat {
    match s.pump
    case Offering(_, phase) => (match phase case Guard => 3 case Offer => 2 case Loop => 1)
    case Finishing(w) => StepsLeft(c, s.branches, w)
    case _ => 0
  }

  function Turn(s: State): nat {
    4 * |s.aborters| + 9
  }

  /** How many steps the pump and the aborters have left once the flag is set. */
  function Budget(c: Config, s: State): nat {
    Turn(s) * PumpTurns(s) + PumpSteps(c, s) + WritersLeft(c, s.branches, Turn(s), s.aborters)
  }

  /** A change of the branches adds at most `extra` to what each writer has left. */
  predicate AddsAtMost(c: Config, before: seq<Branch>, after: seq<Branch>, extra: nat) {
    |before| == |after| &&
    forall b :: 0 <= b < |before| ==>
      |after[b].queue| >= c.cap ==> |before[b].queue| >= c.cap || extra == 3
  }

  lemma {:induction false} OthersLeft(c: Config, before: seq<Branch>, after: seq<Branch>, turn: nat, ws: seq<Writer>,
                                      extra: nat)
    requires AddsAtMost(c, before, after, extra)
    ensures WritersLeft(c, after, turn, ws) <= WritersLeft(c, before, turn, ws) + extra * |ws|
  {
    if ws != [] {
      OthersLeft(c, before, after, turn, ws[1..], extra);
      assert StepsLeft(c, after, ws[0]) <= StepsLeft(c, before, ws[0]) + extra;
    }
  }

  lemma {:induction false} OneLeft(c: Config, branches: seq<Branch>, turn: nat, ws: seq<Writer>, i: nat, w: Writer)
    requires i < |ws|
    ensures WritersLeft(c, branches, turn, ws[i := w]) - WritersLeft(c, branches, turn, ws)
         == WriterLeft(c, branches, turn, w) - WriterLeft(c, branches, turn, ws[i])
  {
    if i > 0 {
      assert ws[i := w][1..] == ws[1..][i - 1 := w];
      OneLeft(c, branches, turn, ws[1..], i - 1, w);
    } else {
      assert ws[i := w][1..] == ws[1..];
    }
  }

  lemma OneTurn(turn: nat, n: nat)
    requires n > 0
    ensures turn * n == turn * (n - 1) + turn
  {
  }

  /** One step of a writer, once the flag is set: it gets on with its branch without filling any queue,
      or it is through with it. */
  lemma WriterGetsOn(c: Config, branches: seq<Branch>, w: Writer)
    requires ValidConfig(c) && WriterOk(c, w) && w.at < |branches| == c.width && |branches[w.at].queue| <= c.cap
    ensures var (br, w') := WriterStep(c, true, branches[w.at], w);
            var after := branches[w.at := br];
      && AddsAtMost(c, branches, after, 3) && WriterOk(c, w')
      && if w'.at == w.at then AddsAtMost(c, branches, after, 0) && StepsLeft(c, after, w') < StepsLeft(c, branches, w)
         else w'.at == w.at + 1 && StepsLeft(c, after, w') <= 5
  {
  }

  lemma PumpGetsOn(c: Config, s: State)
    requires Shape(c, s) && s.stop && Enabled(c, s, PumpStep)
    ensures var t := PumpApply(c, s);
      && t.aborters == s.aborters && AddsAtMost(c, s.branches, t.branches, 3)
      && if PumpTurns(t) == PumpTurns(s)
         then AddsAtMost(c, s.branches, t.branches, 0) && PumpSteps(c, t) < PumpSteps(c, s)
         else PumpTurns(t) < PumpTurns(s) && PumpSteps(c, t) <= 5
  {
    if s.pump.Finishing? { WriterGetsOn(c, s.branches, s.pump.writer); }
  }

  lemma PumpSpends(c: Config, s: State)
    requires Shape(c, s) && s.stop && Enabled(c, s, PumpStep)
    ensures Budget(c, PumpApply(c, s)) < Budget(c, s)
  {
    var t := PumpApply(c, s);
    PumpGetsOn(c, s);
    if PumpTurns(t) == PumpTurns(s) {
      OthersLeft(c, s.branches, t.branches, Turn(s), s.aborters, 0);
    } else {
      OthersLeft(c, s.branches, t.branches, Turn(s), s.aborters, 3);
      OneTurn(Turn(s), PumpTurns(s));
      assert Turn(s) * PumpTurns(t) <= Turn(s) * (PumpTurns(s) - 1);
    }
  }

  lemma AborterSpends(c: Config, s: State, i: nat)
    requires Shape(c, s) && s.stop && Enabled(c, s, AborterStep(i))
    ensures Budget(c, Apply(c, s, AborterStep(i))) < Budget(c, s)
  {
    var t, w := Apply(c, s, AborterStep(i)), s.aborters[i];
    var w' := t.aborters[i];
    var turn := Turn(s);
    WriterGetsOn(c, s.branches, w);
    OneLeft(c, t.branches, turn, s.aborters, i, w');
    var extra := if w'.at == w.at then 0 else 3;
    OthersLeft(c, s.branches, t.branches, turn, s.aborters, extra);
    PumpStepsKept(c, s, t, extra);
    AborterTurn(c, s, t, i);
  }

  lemma PumpStepsKept(c: Config, s: State, t: State, extra: nat)
    requires AddsAtMost(c, s.branches, t.branches, extra) && t.pump == s.pump
    ensures PumpSteps(c, t) <= PumpSteps(c, s) + extra && PumpTurns(t) == PumpTurns(s)
  {
  }

  lemma AborterTurn(c: Config, s: State, t: State, i: nat)
    requires Shape(c, s) && s.stop && Enabled(c, s, AborterStep(i)) && t == Apply(c, s, AborterStep(i))
    ensures var extra := if t.aborters[i].at == s.aborters[i].at then 0 else 3;
      WriterLeft(c, t.branches, Turn(s), t.aborters[i]) + extra * (|s.aborters| + 1)
        < WriterLeft(c, t.branches, Turn(s), s.aborters[i])
  {
    WriterGetsOn(c, s.branches, s.aborters[i]);
    OneTurn(Turn(s), c.width - s.aborters[i].at);
  }

  /** Readers fill no queue. */
  lemma ReadersSpendNothing(c: Config, s: State, a: Action)
    requires Shape(c, s) && Enabled(c, s, a) && (a.Pull? || a.Close? || a.Leave?)
    ensures Budget(c, Apply(c, s, a)) <= Budget(c, s)
  {
    var t := Apply(c, s, a);
    PumpStepsKept(c, s, t, 0);
    OthersLeft(c, s.branches, t.branches, Turn(s), s.aborters, 0);
  }

  /** Once the flag is set, every step of the pump or of an aborter uses up budget, and no reader adds any;
      only a further abort does. */
  lemma BudgetIsSpent(c: Config, s: State, a: Action)
    requires Shape(c, s) && s.stop && Enabled(c, s, a) && !a.Abort?
    ensures Budget(c, Apply(c, s, a)) + OfThread(a) <= Budget(c, s)
  {
    match a
    case Start =>
    case PumpStep => PumpSpends(c, s);
    case AborterStep(i) => AborterSpends(c, s, i);
    case _ => ReadersSpendNothing(c, s, a);
  }

  /** 1 for a step of the pump or of an aborter, 0 for one of a reader. */
  function OfThread(a: Action): nat {
    if a.PumpStep? || a.AborterStep? then 1 else 0
  }

  function ThreadSteps(actions: seq<Action>): nat {
    if actions == [] then 0 else OfThread(actions[0]) + ThreadSteps(actions[1..])
  }

  lemma {:induction false} StepsAreBounded(c: Config, s: State, actions: seq<Action>, t: State)
    requires Shape(c, s) && s.stop && Run(c, s, actions, t) && forall a | a in actions :: !a.Abort?
    ensures Budget(c, t) + ThreadSteps(actions) <= Budget(c, s)
    decreases |actions|
  {
    if actions != [] {
      ShapeStep(c, s, actions[0]);
      StoppedPull(c, s, actions[0]);
      BudgetIsSpent(c, s, actions[0]);
      StepsAreBounded(c, Apply(c, s, actions[0]), actions[1..], t);
    }
  }

  /** Steps of one thread only. */
  ghost predicate Alone(a: Action, actions: seq<Action>) {
    forall i :: 0 <= i < |actions| ==> actions[i] == a
  }

  /** A thread that has not come to its end can take a step, whatever the readers do. */
  predicate HasEnded(s: State, a: Action) {
    match a
    case PumpStep => s.pump.NotStarted? || R.PumpDone(s)
    case AborterStep(i) => i < |s.aborters| ==> s.aborters[i].at == |s.branches|
    case _ => true
  }

  lemma {:induction false} EndsAlone(c: Config, s: State, a: Action) returns (actions: seq<Action>, t: State)
    requires Shape(c, s) && s.stop && (a.PumpStep? || a.AborterStep?)
    ensures Run(c, s, actions, t) && Alone(a, actions) && HasEnded(t, a)
    ensures |actions| <= Budget(c, s)
    decreases Budget(c, s)
  {
    if HasEnded(s, a) {
      actions, t := [], s;
    } else {
      ShapeStep(c, s, a);
      BudgetIsSpent(c, s, a);
      var rest;
      rest, t := EndsAlone(c, Apply(c, s, a), a);
      actions := [a] + rest;
      assert actions[1..] == rest;
    }
  }

  // ---------------------------------------------------------------------------
  // How long that takes at most
  // ---------------------------------------------------------------------------

  /** For `width` branches and n aborters; neither the source nor the bound of the queues matters. */
  function Longest(width: nat, n: nat): nat {
    (4 * n + 9) * (2 * width + 3) + 5 + n * ((4 * n + 9) * width + 5)
  }

  lemma {:induction false} WritersBound(c: Config, branches: seq<Branch>, turn: nat, ws: seq<Writer>)
    ensures WritersLeft(c, branches, turn, ws) <= |ws| * (turn * |branches| + 5)
  {
    if ws != [] {
      WritersBound(c, branches, turn, ws[1..]);
      WriterBound(c, branches, turn, ws[0]);
      assert |ws| * (turn * |branches| + 5) == (|ws| - 1) * (turn * |branches| + 5) + (turn * |branches| + 5);
    }
  }

  lemma WriterBound(c: Config, branches: seq<Branch>, turn: nat, w: Writer)
    ensures WriterLeft(c, branches, turn, w) <= turn * |branches| + 5
  {
    if w.at <= |branches| { assert turn * (|branches| - w.at) <= turn * |branches|; }
  }

  lemma Times(k: nat, m: nat, n: nat)
    requires m <= n
    ensures k * m <= k * n
  {
  }

  lemma BudgetBound(c: Config, s: State)
    requires Shape(c, s)
    ensures Budget(c, s) <= Longest(c.width, |s.aborters|)
  {
    WritersBound(c, s.branches, Turn(s), s.aborters);
    var most := 2 * c.width + 3;
    assert PumpTurns(s) <= most && PumpSteps(c, s) <= 5;
    Times(Turn(s), PumpTurns(s), most);
  }

  // ---------------------------------------------------------------------------
  // The pump without the flag
  // ---------------------------------------------------------------------------

  /** The pump stands before an open branch with a full queue, with an item or the end of the source. */
  predicate Held(c: Config, s: State) {
    !s.stop && R.Blocked(c, s)
  }

  lemma {:induction false} HeldStays(c: Config, s: State, actions: seq<Action>, t: State)
    requires Held(c, s) && Run(c, s, actions, t) && Alone(PumpStep, actions)
    ensures Held(c, t) && !R.PumpDone(t) && t.branches == s.branches && t.pulled == s.pulled
    decreases |actions|
  {
    if actions != [] {
      assert actions[0] == PumpStep;
      HeldStep(c, s);
      HeldStays(c, PumpApply(c, s), actions[1..], t);
    }
  }

  lemma HeldStep(c: Config, s: State)
    requires Held(c, s) && Enabled(c, s, PumpStep)
    ensures var t := PumpApply(c, s); Held(c, t) && t.branches == s.branches && t.pulled == s.pulled
  {
    if s.pump.Finishing? {
      var w := s.pump.writer;
      assert s.branches[w.at := s.branches[w.at]] == s.branches;
    } else {
      assert s.pump.Offering?;
    }
  }

  lemma RankFalls(c: Config, s: State)
    requires Shape(c, s) && !s.stop && !Held(c, s) && Enabled(c, s, PumpStep)
    ensures R.Rank(c, PumpApply(c, s)) < R.Rank(c, s)
  {
    match s.pump
    case Offering(_, _) => R.OfferAdvances(c, s);
    case Finishing(_) => R.FinishAdvances(c, s);
    case _ => R.SourceAdvances(c, s);
  }

  /** Left to itself, a pump that was started gets to its end or to where it is held. */
  lemma {:induction false} PumpAlone(c: Config, s: State) returns (actions: seq<Action>, t: State)
    requires Shape(c, s) && !s.pump.NotStarted?
    ensures Run(c, s, actions, t) && Alone(PumpStep, actions) && (R.PumpDone(t) || Held(c, t))
    decreases if s.stop then 0 else 1, if s.stop then Budget(c, s) else R.Rank(c, s)
  {
    if R.PumpDone(s) || Held(c, s) {
      actions, t := [], s;
    } else {
      ShapeStep(c, s, PumpStep);
      if s.stop { PumpSpends(c, s); } else { RankFalls(c, s); }
      var rest;
      rest, t := PumpAlone(c, PumpApply(c, s));
      actions := [PumpStep] + rest;
      assert actions[1..] == rest;
    }
  }

  // ---------------------------------------------------------------------------
  // Theorems
  // ---------------------------------------------------------------------------

  /** The flag is set exactly by an abort, by the last branch to leave, or by a failing source. */
  lemma StopHasACause(c: Config, s: State)
    requires Reachable(c, s)
    ensures s.stop <==>
      || s.aborters != []
      || (c.width > 0 && forall b :: 0 <= b < |s.branches| ==> !s.branches[b].active)
      || (s.pump.Finishing? && s.pump.writer.marker != Eof)
  {
    ReachableGood(c, s);
  }

  lemma {:induction false} OneMorePull(c: Config, s: State, actions: seq<Action>, t: State)
    requires s.stop && Run(c, s, actions, t) && Alone(PumpStep, actions)
    requires StillPulls(s) && s.pulled < c.items && !StillPulls(t)
    ensures t.pulled == s.pulled + 1
    decreases |actions|
  {
    assert actions[0] == PumpStep;
    StoppedPull(c, s, PumpStep);
    var s1 := PumpApply(c, s);
    if StillPulls(s1) {
      OneMorePull(c, s1, actions[1..], t);
    } else {
      PullsAfterStop(c, s1, actions[1..], t);
    }
  }

  ghost predicate CanPull(c: Config, s: State) {
    exists actions, t :: Run(c, s, actions, t) && t.pulled > s.pulled
  }

  lemma OneMoreCanBePulled(c: Config, s: State)
    requires Reachable(c, s) && s.stop && StillPulls(s) && s.pulled < c.items
    ensures CanPull(c, s)
  {
    ReachableGood(c, s);
    var actions, t := EndsAlone(c, s, PumpStep);
    OneMorePull(c, s, actions, t);
  }

  /** Once the flag is set, at most one more item is taken from the source, whatever happens, and one
      can be taken if and only if the pump is between two items and the source has another one. */
  lemma StopEndsPulling(c: Config, s: State)
    requires Reachable(c, s) && s.stop
    ensures forall actions, t | Run(c, s, actions, t) :: t.stop && s.pulled <= t.pulled <= s.pulled + 1
    ensures CanPull(c, s) <==> (s.pump.Pulling? || s.pump.Offering?) && s.pulled < c.items
  {
    ReachableGood(c, s);
    forall actions, t | Run(c, s, actions, t)
      ensures t.stop && s.pulled <= t.pulled <= s.pulled + (if StillPulls(s) then 1 else 0) && t.pulled <= c.items
    {
      PullsAfterStop(c, s, actions, t);
      RunGood(c, s, actions, t);
    }
    if StillPulls(s) && s.pulled < c.items {
      OneMoreCanBePulled(c, s);
    }
  }

  /** Once the flag is set, the pump and all aborters together take a bounded number of steps, in every
      interleaving with readers that read or not, as long as nobody aborts again; and a thread that has
      not come to its end can always take a step. */
  lemma StopEndsThreads(c: Config, s: State, actions: seq<Action>, t: State)
    requires Reachable(c, s) && s.stop && Run(c, s, actions, t) && forall a | a in actions :: !a.Abort?
    ensures ThreadSteps(actions) <= Longest(c.width, |s.aborters|)
    ensures Enabled(c, t, PumpStep) <==> !t.pump.NotStarted? && !(t.pump.Finishing? && t.pump.writer.at == c.width)
    ensures forall i: nat | i < |t.aborters| :: Enabled(c, t, AborterStep(i)) <==> t.aborters[i].at != c.width
  {
    ReachableGood(c, s);
    RunGood(c, s, actions, t);
    StepsAreBounded(c, s, actions, t);
    BudgetBound(c, s);
  }

  /** In particular each of them ends without any reader and without the others, over full queues. */
  lemma EveryThreadEndsAlone(c: Config, s: State, a: Action) returns (actions: seq<Action>, t: State)
    requires Reachable(c, s) && s.stop && (a.PumpStep? || a.AborterStep?)
    ensures Run(c, s, actions, t) && |actions| <= Longest(c.width, |s.aborters|)
    ensures forall i :: 0 <= i < |actions| ==> actions[i] == a
    ensures match a
      case PumpStep => t.pump.NotStarted? || (t.pump.Finishing? && t.pump.writer.at == c.width)
      case AborterStep(i) => i < |t.aborters| ==> t.aborters[i].at == c.width
  {
    ReachableGood(c, s);
    actions, t := EndsAlone(c, s, a);
    RunGood(c, s, actions, t);
    BudgetBound(c, s);
  }

  /** By steps of its own alone, a pump that was started gets to its end if and only if it does not get
      to an open branch with a full queue first, and from there it moves nothing; a closed branch never
      holds it, and with the flag set nothing does. */
  lemma PumpIsHeldExactly(c: Config, s: State)
    requires Reachable(c, s) && !s.pump.NotStarted?
    ensures (exists actions, t :: Run(c, s, actions, t) && Alone(PumpStep, actions) && R.PumpDone(t))
       <==> !exists actions, t :: Run(c, s, actions, t) && Alone(PumpStep, actions) && Held(c, t)
  {
    ReachableGood(c, s);
    var actions, t := PumpAlone(c, s);
    forall one, t1, two, t2 | Run(c, s, one, t1) && Alone(PumpStep, one) && R.PumpDone(t1)
                              && Run(c, s, two, t2) && Alone(PumpStep, two) ensures !Held(c, t2) {
      DoneOrHeld(c, s, one, t1, two, t2);
    }
  }

  lemma {:induction false} DoneOrHeld(c: Config, s: State, one: seq<Action>, t1: State, two: seq<Action>, t2: State)
    requires Run(c, s, one, t1) && Alone(PumpStep, one) && R.PumpDone(t1)
    requires Run(c, s, two, t2) && Alone(PumpStep, two)
    ensures !Held(c, t2)
    decreases |one|
  {
    if two == [] {
      if Held(c, s) { HeldStays(c, s, one, t1); }
    } else {
      assert two[0] == PumpStep;
      assert one != [] && one[0] == PumpStep;
      DoneOrHeld(c, PumpApply(c, s), one[1..], t1, two[1..], t2);
    }
  }
}
