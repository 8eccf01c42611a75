/** What a consumer of a fan-out branch is told at the end, and what it may miss before that. */
module FanoutEndings {
  import opened Wrappers
  import opened Fanout

  // ---------------------------------------------------------------------------
  // The end is final
  // ---------------------------------------------------------------------------

  /** What `__next__` answers once the branch is closed. */
  datatype Answer = Stops | Raises(e: Exn) | ClosedBeforeTheEnd

  function Next(br: Branch): Answer
    requires br.closed.Some?
  {
    match br.closed.value
    case Exhausted => Stops
    case Failed(e) => Raises(e)
    case Early => ClosedBeforeTheEnd
  }

  lemma {:induction false} ClosedForever(c: Config, s: State, b: nat, actions: seq<Action>, t: State)
    requires Run(c, s, actions, t) && b < |s.branches| && s.branches[b].closed.Some?
    ensures b < |t.branches| && t.branches[b].closed == s.branches[b].closed
    ensures t.branches[b].received == s.branches[b].received
    decreases |actions|
  {
    if actions != [] {
      ClosedForever(c, Apply(c, s, actions[0]), b, actions[1..], t);
    }
  }

  /** The read that takes a terminal marker decides all later answers, whatever happens then: the end of
      the stream, or that exception, again and again. */
  lemma EndIsFinal(c: Config, s: State, b: nat, actions: seq<Action>, t: State)
    requires Enabled(c, s, Pull(b)) && s.branches[b].queue[0].Last? && Run(c, Apply(c, s, Pull(b)), actions, t)
    ensures b < |t.branches| && t.branches[b].closed.Some? && t.branches[b].received == s.branches[b].received
    ensures Next(t.branches[b]) ==
            match s.branches[b].queue[0].marker { case Eof => Stops case Raised(e) => Raises(e) }
  {
    ClosedForever(c, Apply(c, s, Pull(b)), b, actions, t);
  }

  /** After an early close no later read looks like the end of the stream. */
  lemma EarlyCloseIsLoud(c: Config, s: State, b: nat, actions: seq<Action>, t: State)
    requires Enabled(c, s, Close(b)) && Run(c, Apply(c, s, Close(b)), actions, t)
    ensures b < |t.branches| && t.branches[b].closed.Some? && Next(t.branches[b]) == ClosedBeforeTheEnd
    ensures t.branches[b].received == s.branches[b].received
  {
    ClosedForever(c, Apply(c, s, Close(b)), b, actions, t);
  }

  /** Reading, closing and leaving take nothing away: what a branch was given stays read or queued, and
      neither the pump nor an aborter is moved. */
  lemma ReadersKeepContents(c: Config, s: State, a: Action, b: nat)
    requires Enabled(c, s, a) && (a.Pull? || a.Close? || a.Leave?) && b < |s.branches|
    ensures var t := Apply(c, s, a);
      && |t.branches| == |s.branches| && Contents(t.branches[b]) == Contents(s.branches[b])
      && t.pump == s.pump && t.pulled == s.pulled && t.aborters == s.aborters
  {
    if a == Pull(b) { PullKeepsContents(s.branches[b]); }
  }

  // ---------------------------------------------------------------------------
  // Endings are true
  // ---------------------------------------------------------------------------

  /** Some aborter, or the pump, hands out this marker. */
  ghost predicate Told(s: State, m: Marker) {
    || (exists i :: 0 <= i < |s.aborters| && s.aborters[i].marker == m)
    || (s.pump.Finishing? && s.pump.writer.marker == m)
  }

  ghost predicate TrueAt(s: State, b: nat)
    requires b < |s.branches|
  {
    var br := s.branches[b];
    && (forall k :: 0 <= k < |br.queue| && br.queue[k].Last? ==> Told(s, br.queue[k].marker))
    && (br.closed == Some(Exhausted) ==> Told(s, Eof))
    && (br.closed.Some? && br.closed.value.Failed? ==> Told(s, Raised(br.closed.value.e)))
  }

  /** The pump's own marker is the ending of the source, or EOF because of the stop flag. */
  predicate PumpTrue(c: Config, s: State) {
    s.pump.Finishing? ==>
      || (s.pulled == c.items && s.pump.writer.marker == EndMarker(c))
      || (s.stop && s.pump.writer.marker == Eof)
  }

  ghost predicate True(c: Config, s: State) {
    PumpTrue(c, s) && forall b :: 0 <= b < |s.branches| ==> TrueAt(s, b)
  }

  lemma StillTold(c: Config, s: State, a: Action, m: Marker)
    requires Enabled(c, s, a) && Told(s, m)
    ensures Told(Apply(c, s, a), m)
  {
    var t := Apply(c, s, a);
    if i :| 0 <= i < |s.aborters| && s.aborters[i].marker == m {
      assert t.aborters[i].marker == m;
    }
  }

  lemma WriterTells(c: Config, s: State, t: State, w: Writer, b: nat)
    requires w.at < |s.branches| && b < |s.branches| == |t.branches| && TrueAt(s, b) && Told(t, w.marker)
    requires forall m | Told(s, m) :: Told(t, m)
    requires t.branches == s.branches[w.at := WriterStep(c, s.stop, s.branches[w.at], w).0]
    ensures TrueAt(t, b)
  {
  }

  lemma TrueStep(c: Config, s: State, a: Action)
    requires Shape(c, s) && True(c, s) && Enabled(c, s, a)
    ensures True(c, Apply(c, s, a))
  {
    var t := Apply(c, s, a);
    forall m | Told(s, m) ensures Told(t, m) { StillTold(c, s, a, m); }
    forall b | 0 <= b < |t.branches| ensures TrueAt(t, b) {
      assert TrueAt(s, b);
      if a.PumpStep? && s.pump.Finishing? {
        WriterTells(c, s, t, s.pump.writer, b);
      } else if a.AborterStep? {
        assert Told(s, s.aborters[a.i].marker);
        WriterTells(c, s, t, s.aborters[a.i], b);
      }
    }
  }

  lemma {:induction false} TrueRun(c: Config, s: State, actions: seq<Action>, t: State)
    requires Shape(c, s) && True(c, s) && Run(c, s, actions, t)
    ensures True(c, t)
    decreases |actions|
  {
    if actions != [] {
      ShapeStep(c, s, actions[0]);
      TrueStep(c, s, actions[0]);
      TrueRun(c, Apply(c, s, actions[0]), actions[1..], t);
    }
  }

  /** The markers given to `abort`, in order. */
  function Aborts(actions: seq<Action>): seq<Marker> {
    if actions == [] then []
    else (if actions[0].Abort? then [actions[0].marker] else []) + Aborts(actions[1..])
  }

  function MarkersOf(ws: seq<Writer>): seq<Marker> {
    seq(|ws|, i requires 0 <= i < |ws| => ws[i].marker)
  }

  lemma StepKeepsMarkers(c: Config, s: State, a: Action)
    requires Enabled(c, s, a)
    ensures MarkersOf(Apply(c, s, a).aborters) == MarkersOf(s.aborters) + if a.Abort? then [a.marker] else []
  {
    var t := Apply(c, s, a);
    forall i | 0 <= i < |s.aborters| ensures t.aborters[i].marker == s.aborters[i].marker {
    }
  }

  /** Every abort has one writer, which hands out what `abort` was given. */
  lemma {:induction false} AbortersKeepTheirMarkers(c: Config, s: State, actions: seq<Action>, t: State)
    requires Run(c, s, actions, t)
    ensures MarkersOf(t.aborters) == MarkersOf(s.aborters) + Aborts(actions)
    decreases |actions|
  {
    if actions != [] {
      StepKeepsMarkers(c, s, actions[0]);
      AbortersKeepTheirMarkers(c, Apply(c, s, actions[0]), actions[1..], t);
    }
  }

  /** No branch ends with anything it was not told: an exception is the source's own, after all its
      items, or was given to an abort; an ordinary end is the source's own, after all its items, or
      comes with an abort that was given none, or with the stop flag. */
  lemma EndingsAreTrue(c: Config, s: State, actions: seq<Action>, t: State, b: nat)
    requires Init(c, s) && Run(c, s, actions, t) && b < c.width
    ensures b < |t.branches|
    ensures match t.branches[b].closed
      case Some(Failed(e)) => Raised(e) in Aborts(actions) || (c.ending == Fails(e) && t.pulled == c.items)
      case Some(Exhausted) => Eof in Aborts(actions) || (c.ending.Ends? && t.pulled == c.items) || t.stop
      case _ => true
  {
    InitGood(c, s);
    RunGood(c, s, actions, t);
    TrueRun(c, s, actions, t);
    AbortersKeepTheirMarkers(c, s, actions, t);
    assert MarkersOf(s.aborters) == [];
    assert TrueAt(t, b);
    forall i | 0 <= i < |t.aborters| ensures t.aborters[i].marker in Aborts(actions) {
      assert MarkersOf(t.aborters)[i] == t.aborters[i].marker;
    }
  }

  // ---------------------------------------------------------------------------
  // What an abort tells
  // ---------------------------------------------------------------------------

  function ReasonOf(m: Marker): Closing {
    if m.Eof? then Exhausted else Failed(m.e)
  }

  /** A pump that was never started leaves the branches to the only aborter. */
  ghost predicate LoneAborter(s: State, b: nat)
    requires b < |s.branches|
  {
    s.pump.NotStarted? && |s.aborters| <= 1 ==>
      var br := s.branches[b];
      && br.received == []
      && (br.closed.None? ==>
            br.queue == if s.aborters != [] && s.aborters[0].at > b then [Last(s.aborters[0].marker)] else [])
      && (br.closed.Some? && br.closed != Some(Early) ==>
            s.aborters != [] && s.aborters[0].at > b && br.closed == Some(ReasonOf(s.aborters[0].marker)))
  }

  lemma LoneStep(c: Config, s: State, a: Action, b: nat)
    requires Shape(c, s) && Enabled(c, s, a) && b < c.width && LoneAborter(s, b)
    ensures LoneAborter(Apply(c, s, a), b)
  {
    match a
    case AborterStep(i) => if s.pump.NotStarted? && |s.aborters| <= 1 { LoneWriterStep(c, s, b); }
    case Pull(x) =>
    case _ =>
  }

  lemma LoneWriterStep(c: Config, s: State, b: nat)
    requires Shape(c, s) && Enabled(c, s, AborterStep(0)) && b < c.width && LoneAborter(s, b)
    requires s.pump.NotStarted? && |s.aborters| == 1
    ensures LoneAborter(Apply(c, s, AborterStep(0)), b)
  {
  }

  lemma {:induction false} LoneRun(c: Config, s: State, actions: seq<Action>, t: State, b: nat)
    requires Shape(c, s) && Run(c, s, actions, t) && b < c.width && LoneAborter(s, b)
    ensures b < |t.branches| && LoneAborter(t, b)
    decreases |actions|
  {
    if actions != [] {
      ShapeStep(c, s, actions[0]);
      LoneStep(c, s, actions[0], b);
      LoneRun(c, Apply(c, s, actions[0]), actions[1..], t, b);
    }
  }

  /** If nobody started the pump, one abort tells every branch exactly what it was given. */
  lemma LoneAbortTells(c: Config, t: State, b: nat)
    requires Reachable(c, t) && t.pump.NotStarted? && |t.aborters| == 1 && t.aborters[0].at == c.width && b < c.width
    ensures |t.branches| == c.width && t.branches[b].received == []
    ensures match t.branches[b].closed
      case None => Drain(t.branches[b], c.cap).closed == Some(ReasonOf(t.aborters[0].marker))
      case Some(reason) => reason == Early || reason == ReasonOf(t.aborters[0].marker)
  {
    var s, actions :| Init(c, s) && Run(c, s, actions, t);
    ReachableGood(c, t);
    InitGood(c, s);
    LoneRun(c, s, actions, t, b);
    if t.branches[b].closed.None? { DrainToLast(t.branches[b], c.cap); }
  }

  lemma {:induction false} OneMoreStep(c: Config, s: State, actions: seq<Action>, t: State, a: Action)
    requires Run(c, s, actions, t) && Enabled(c, t, a)
    ensures Run(c, s, actions + [a], Apply(c, t, a))
    decreases |actions|
  {
    if actions == [] {
      assert ([] + [a])[1..] == [];
      assert Run(c, Apply(c, t, a), [], Apply(c, t, a));
    } else {
      OneMoreStep(c, Apply(c, s, actions[0]), actions[1..], t, a);
      assert (actions + [a])[1..] == actions[1..] + [a];
    }
  }

  predicate SameState(s: State, t: State) {
    && s.pump == t.pump && s.pulled == t.pulled && s.stop == t.stop
    && |s.branches| == |t.branches| && (forall b :: 0 <= b < |s.branches| ==> s.branches[b] == t.branches[b])
    && |s.aborters| == |t.aborters| && (forall i :: 0 <= i < |s.aborters| ==> s.aborters[i] == t.aborters[i])
  }

  lemma ReachableNext(c: Config, t: State, a: Action, next: State)
    requires Reachable(c, t) && Enabled(c, t, a) && SameState(Apply(c, t, a), next)
    ensures Reachable(c, next)
  {
    var s, actions :| Init(c, s) && Run(c, s, actions, t);
    OneMoreStep(c, s, actions, t, a);
    assert Apply(c, t, a).branches == next.branches && Apply(c, t, a).aborters == next.aborters;
  }

  const NARROW := Config(1, Ends, 1, 1)

  function Narrow(pump: Pump, pulled: nat, stop: bool, br: Branch, aborters: seq<Writer>): State {
    State(pump, pulled, stop, [br], aborters)
  }

  lemma ItemInHand()
    ensures Reachable(NARROW, Narrow(Offering(0, Loop), 1, false, Branch([], [], None, true), []))
  {
    var br := Branch([], [], None, true);
    var s0 := Narrow(NotStarted, 0, false, br, []);
    var s1 := Narrow(Pulling, 0, false, br, []);
    var s2 := Narrow(Pulled, 1, false, br, []);
    assert Run(NARROW, s0, [], s0);
    ReachableNext(NARROW, s0, Start, s1);
    ReachableNext(NARROW, s1, PumpStep, s2);
    ReachableNext(NARROW, s2, PumpStep, Narrow(Offering(0, Loop), 1, false, br, []));
  }

  /** The pump holds the item, and the aborter has put its marker. */
  lemma AbortedWhileOffering(e: Exn)
    ensures Reachable(NARROW, Narrow(Offering(0, Loop), 1, true, Branch([Last(Raised(e))], [], None, true),
                                     [Writer(Raised(e), 1, Check)]))
  {
    ItemInHand();
    var br, pump := Branch([], [], None, true), Offering(0, Loop);
    var s4 := Narrow(pump, 1, true, br, [Writer(Raised(e), 0, Check)]);
    var s5 := Narrow(pump, 1, true, br, [Writer(Raised(e), 0, Put)]);
    var s6 := Narrow(pump, 1, true, br.(queue := [Last(Raised(e))]), [Writer(Raised(e), 1, Check)]);
    ReachableNext(NARROW, Narrow(pump, 1, false, br, []), Abort(Raised(e)), s4);
    ReachableNext(NARROW, s4, AborterStep(0), s5);
    ReachableNext(NARROW, s5, AborterStep(0), s6);
  }

  /** One step of the pump in the aborted run. */
  lemma PumpNext(e: Exn, pump: Pump, br: Branch, pump': Pump, br': Branch)
    requires var s := Narrow(pump, 1, true, br, [Writer(Raised(e), 1, Check)]);
      && Reachable(NARROW, s) && Enabled(NARROW, s, PumpStep)
      && SameState(PumpApply(NARROW, s), Narrow(pump', 1, true, br', [Writer(Raised(e), 1, Check)]))
    ensures Reachable(NARROW, Narrow(pump', 1, true, br', [Writer(Raised(e), 1, Check)]))
  {
    var aborters := [Writer(Raised(e), 1, Check)];
    ReachableNext(NARROW, Narrow(pump, 1, true, br, aborters), PumpStep, Narrow(pump', 1, true, br', aborters));
  }

  /** The pump sees the flag, finds the source at its end, and has to put its EOF into the full queue. */
  lemma EofFindsItFull(e: Exn)
    ensures Reachable(NARROW, Narrow(Finishing(Writer(Eof, 0, Full)), 1, true, Branch([Last(Raised(e))], [], None, true),
                                     [Writer(Raised(e), 1, Check)]))
  {
    var marked := Branch([Last(Raised(e))], [], None, true);
    AbortedWhileOffering(e);
    PumpNext(e, Offering(0, Loop), marked, Offering(1, Loop), marked);
    PumpNext(e, Offering(1, Loop), marked, Pulling, marked);
    PumpNext(e, Pulling, marked, Finishing(Writer(Eof, 0, Check)), marked);
    PumpNext(e, Finishing(Writer(Eof, 0, Check)), marked, Finishing(Writer(Eof, 0, Put)), marked);
    PumpNext(e, Finishing(Writer(Eof, 0, Put)), marked, Finishing(Writer(Eof, 0, Full)), marked);
  }

  /** The pump puts its EOF in the place of that marker. */
  lemma MarkerReplaced(e: Exn)
    ensures Reachable(NARROW, Narrow(Finishing(Writer(Eof, 1, Check)), 1, true, Branch([Last(Eof)], [], None, true),
                                     [Writer(Raised(e), 1, Check)]))
  {
    var marked, empty := Branch([Last(Raised(e))], [], None, true), Branch([], [], None, true);
    EofFindsItFull(e);
    PumpNext(e, Finishing(Writer(Eof, 0, Full)), marked, Finishing(Writer(Eof, 0, Check)), empty);
    PumpNext(e, Finishing(Writer(Eof, 0, Check)), empty, Finishing(Writer(Eof, 0, Put)), empty);
    PumpNext(e, Finishing(Writer(Eof, 0, Put)), empty, Finishing(Writer(Eof, 1, Check)), empty.(queue := [Last(Eof)]));
  }

  /** A source of one item for one consumer, with room for one: `abort(e)` puts its exception into the queue
      while the pump holds the item; the pump, which has to put its EOF into the full queue and sees the
      stop flag, drops it.  So the consumer of an aborted run can be told an ordinary end. */
  lemma AbortExceptionCanBeLost(e: Exn)
    ensures exists t :: Reachable(NARROW, t) && t.aborters == [Writer(Raised(e), 1, Check)]
                        && t.branches == [Branch([], [], Some(Exhausted), true)]
  {
    MarkerReplaced(e);
    var pump, aborters := Finishing(Writer(Eof, 1, Check)), [Writer(Raised(e), 1, Check)];
    var s := Narrow(pump, 1, true, Branch([Last(Eof)], [], None, true), aborters);
    ReachableNext(NARROW, s, Pull(0), Narrow(pump, 1, true, Branch([], [], Some(Exhausted), true), aborters));
  }

  // ---------------------------------------------------------------------------
  // The oldest unread items go first
  // ---------------------------------------------------------------------------

  /** The data in a queue are consecutive items, up to the one before `x`. */
  predicate EndsBefore(q: seq<Entry>, x: int) {
    var unread := Positions(q);
    forall k :: 0 <= k < |unread| ==> unread[k] == x - |unread| + k
  }

  lemma DropOldest(q: seq<Entry>, x: int)
    requires q != [] && EndsBefore(q, x)
    ensures EndsBefore(q[1..], x)
  {
    var all, rest := Positions(q), Positions(q[1..]);
    forall k | 0 <= k < |rest| ensures rest[k] == x - |rest| + k {
      assert rest[k] == all[k + |all| - |rest|];
    }
  }

  lemma AddNewest(q: seq<Entry>, x: nat, e: Entry)
    requires EndsBefore(q, x) && (e.Data? ==> e.pos == x)
    ensures EndsBefore(q + [e], if e.Data? then x + 1 else x)
  {
    PositionsAppend(q, e);
  }

  /** The data in the queue of an open branch are the newest items it was offered. */
  predicate Newest(s: State, b: nat)
    requires b < |s.branches|
  {
    s.aborters == [] && s.branches[b].closed.None? ==> EndsBefore(s.branches[b].queue, Offered(s, b))
  }

  lemma NewestWriter(c: Config, stop: bool, br: Branch, w: Writer, x: nat)
    requires EndsBefore(br.queue, x)
    ensures EndsBefore(WriterStep(c, stop, br, w).0.queue, x)
  {
    AddNewest(br.queue, x, Last(w.marker));
    if br.queue != [] { DropOldest(br.queue, x); }
  }

  lemma NewestOffer(c: Config, s: State, b: nat)
    requires Shape(c, s) && Enabled(c, s, PumpStep) && b < c.width && s.pump == Offering(b, Offer)
    requires EndsBefore(s.branches[b].queue, Offered(s, b))
    ensures EndsBefore(PumpApply(c, s).branches[b].queue, Offered(PumpApply(c, s), b))
  {
    AddNewest(s.branches[b].queue, s.pulled - 1, Data(s.pulled - 1));
  }

  lemma NewestPump(c: Config, s: State, b: nat)
    requires Shape(c, s) && Calm(c, s) && Enabled(c, s, PumpStep) && b < c.width && Newest(s, b)
    ensures Newest(PumpApply(c, s), b)
  {
    if s.branches[b].closed.None? && s.aborters == [] {
      assert s.branches[b].active;
      if s.pump.Finishing? && s.pump.writer.at == b {
        NewestWriter(c, s.stop, s.branches[b], s.pump.writer, s.pulled);
      } else if s.pump == Offering(b, Offer) {
        NewestOffer(c, s, b);
      } else {
        var t := PumpApply(c, s);
        assert t.branches[b] == s.branches[b];
        assert Offered(t, b) == Offered(s, b);
      }
    }
  }

  lemma NewestStep(c: Config, s: State, a: Action, b: nat)
    requires Shape(c, s) && Calm(c, s) && Enabled(c, s, a) && b < c.width && Newest(s, b)
    ensures Newest(Apply(c, s, a), b)
  {
    if a.PumpStep? {
      NewestPump(c, s, b);
    } else if a == Pull(b) {
      if Newest(s, b) && s.aborters == [] { DropOldest(s.branches[b].queue, Offered(s, b)); }
    }
  }

  lemma {:induction false} NewestRun(c: Config, s: State, actions: seq<Action>, t: State, b: nat)
    requires Good(c, s) && Run(c, s, actions, t) && b < c.width && Newest(s, b)
    ensures b < |t.branches| && Newest(t, b)
    decreases |actions|
  {
    if actions != [] {
      StepGood(c, s, actions[0]);
      NewestStep(c, s, actions[0], b);
      NewestRun(c, Apply(c, s, actions[0]), actions[1..], t, b);
    }
  }

  /** When the source fails, an open branch may miss an item, but then the oldest one it had not read:
      what it can still read are the last items before the failure, without a gap. */
  lemma OldestGoesFirst(c: Config, t: State, b: nat)
    requires Reachable(c, t) && t.aborters == [] && b < c.width
    requires |t.branches| == c.width && t.branches[b].closed.None?
    ensures var unread := Positions(t.branches[b].queue);
      forall k :: 0 <= k < |unread| ==> unread[k] == Offered(t, b) - |unread| + k
    ensures t.pulled - 1 <= Offered(t, b) <= t.pulled && (t.pump.Finishing? ==> Offered(t, b) == c.items)
  {
    ReachableGood(c, t);
    assert t.branches[b].active;
    var s, actions :| Init(c, s) && Run(c, s, actions, t);
    InitGood(c, s);
    NewestRun(c, s, actions, t, b);
  }
}
