/** The bounded fan-out handoff of `SyncFanout`/`SyncQueueIterator` as a state machine.

    One pump thread feeds `width` bounded queues; consumers read, close early or abandon their
    branches; any number of aborters may write terminal markers at any time.  Every access to
    shared state that the program performs under a separate lock acquisition, queue operation or
    event test is a separate step, so any interleaving of the threads is a run.

    The pump never looks at an item, so an item is identified with its position in the source;
    `Values` turns positions back into the items of an arbitrary source. */
module Fanout {
  import opened Wrappers

  type Exn = nat

  datatype Marker = Eof | Raised(e: Exn)
  datatype Entry = Data(pos: nat) | Last(marker: Marker)
  datatype Ending = Ends | Fails(e: Exn)

  /** `items` items are produced before the source ends; `cap` is `max_in_flight`. */
  datatype Config = Config(items: nat, ending: Ending, cap: nat, width: nat)

  datatype Closing = Exhausted | Failed(e: Exn) | Early

  /** `active` is membership in `_active_branches`; `closed` is `_closed` with its reason. */
  datatype Branch = Branch(queue: seq<Entry>, received: seq<nat>, closed: Option<Closing>, active: bool)

  /** A thread inside `_put_terminal`'s loops; `at == width` once every branch has been served. */
  datatype WriterPhase = Check | Put | Full
  datatype Writer = Writer(marker: Marker, at: nat, phase: WriterPhase)

  datatype OfferPhase = Loop | Guard | Offer
  datatype Pump =
    | NotStarted
    | Pulling
    | Pulled
    | Offering(at: nat, phase: OfferPhase)
    | Finishing(writer: Writer)

  datatype State = State(pump: Pump, pulled: nat, stop: bool, branches: seq<Branch>, aborters: seq<Writer>)

  datatype Action =
    | Start
    | PumpStep
    | Abort(marker: Marker)
    | AborterStep(i: nat)
    | Pull(b: nat)
    | Close(b: nat)
    | Leave(b: nat)

  // ---------------------------------------------------------------------------
  // Steps
  // ---------------------------------------------------------------------------

  predicate ValidConfig(c: Config) {
    c.cap >= 1
  }

  ghost predicate Init(c: Config, s: State) {
    && ValidConfig(c)
    && s.pump == NotStarted && s.pulled == 0 && !s.stop && s.aborters == []
    && |s.branches| == c.width
    && forall b :: 0 <= b < c.width ==> s.branches[b] == Branch([], [], None, true)
  }

  predicate Enabled(c: Config, s: State, a: Action) {
    match a
    case Start => s.pump.NotStarted? && !s.stop
    case PumpStep => !s.pump.NotStarted? && (s.pump.Finishing? ==> s.pump.writer.at < |s.branches|)
                     && (s.pump.Offering? ==> s.pump.at <= |s.branches|)
                     && (s.pump.Offering? && s.pump.phase != Loop ==> s.pump.at < |s.branches|)
    case Abort(_) => true
    case AborterStep(i) => i < |s.aborters| && s.aborters[i].at < |s.branches|
    case Pull(b) => b < |s.branches| && s.branches[b].closed.None? && s.branches[b].queue != []
    case Close(b) => b < |s.branches| && s.branches[b].closed.None?
    case Leave(b) => b < |s.branches| && s.branches[b].closed.Some? && s.branches[b].active
  }

  /** One step of `_put_terminal` on the branch the writer is at. */
  function WriterStep(c: Config, stop: bool, br: Branch, w: Writer): (Branch, Writer) {
    match w.phase
    case Check => if br.active then (br, w.(phase := Put)) else (br, Writer(w.marker, w.at + 1, Check))
    case Put =>
      if |br.queue| < c.cap
      then (br.(queue := br.queue + [Last(w.marker)]), Writer(w.marker, w.at + 1, Check))
      else (br, w.(phase := Full))
    case Full =>
      var dropping := (w.marker != Eof || stop) && br.queue != [];
      (br.(queue := if dropping then br.queue[1..] else br.queue), w.(phase := Check))
  }

  /** One step of `_pump`. */
  function PumpApply(c: Config, s: State): State
    requires Enabled(c, s, PumpStep)
  {
    match s.pump
    case Pulling =>
      if s.pulled < c.items then s.(pulled := s.pulled + 1, pump := Pulled)
      else if c.ending.Ends? then s.(pump := Finishing(Writer(Eof, 0, Check)))
      else s.(stop := true, pump := Finishing(Writer(Raised(c.ending.e), 0, Check)))
    case Pulled =>
      if s.stop then s.(pump := Finishing(Writer(Eof, 0, Check))) else s.(pump := Offering(0, Loop))
    case Offering(b, Loop) =>
      if b == |s.branches| then s.(pump := Pulling)
      else if s.stop then s.(pump := Offering(b + 1, Loop))
      else s.(pump := Offering(b, Guard))
    case Offering(b, Guard) =>
      if s.branches[b].active then s.(pump := Offering(b, Offer)) else s.(pump := Offering(b + 1, Loop))
    case Offering(b, Offer) =>
      var br := s.branches[b];
      if |br.queue| < c.cap && s.pulled > 0
      then s.(branches := s.branches[b := br.(queue := br.queue + [Data(s.pulled - 1)])], pump := Offering(b + 1, Loop))
      else s.(pump := Offering(b, Loop))
    case Finishing(w) =>
      var (br, w') := WriterStep(c, s.stop, s.branches[w.at], w);
      s.(branches := s.branches[w.at := br], pump := Finishing(w'))
  }

  /** `SyncQueueIterator.__next__` on an open branch whose queue is not empty. */
  function PullFrom(br: Branch): Branch
    requires br.queue != []
  {
    var rest := br.(queue := br.queue[1..]);
    match br.queue[0]
    case Data(p) => rest.(received := br.received + [p])
    case Last(Eof) => rest.(closed := Some(Exhausted))
    case Last(Raised(e)) => rest.(closed := Some(Failed(e)))
  }

  predicate NoneActive(branches: seq<Branch>) {
    forall b :: 0 <= b < |branches| ==> !branches[b].active
  }

  function Apply(c: Config, s: State, a: Action): State
    requires Enabled(c, s, a)
  {
    match a
    case Start => s.(pump := Pulling)
    case PumpStep => PumpApply(c, s)
    case Abort(m) => s.(stop := true, aborters := s.aborters + [Writer(m, 0, Check)])
    case AborterStep(i) =>
      var w := s.aborters[i];
      var (br, w') := WriterStep(c, s.stop, s.branches[w.at], w);
      s.(branches := s.branches[w.at := br], aborters := s.aborters[i := w'])
    case Pull(b) => s.(branches := s.branches[b := PullFrom(s.branches[b])])
    case Close(b) => s.(branches := s.branches[b := s.branches[b].(closed := Some(Early))])
    case Leave(b) =>
      var branches := s.branches[b := s.branches[b].(active := false)];
      s.(branches := branches, stop := s.stop || NoneActive(branches))
  }

  /** `actions` can be taken one after the other from `s`, ending in `t`. */
  ghost predicate Run(c: Config, s: State, actions: seq<Action>, t: State)
    decreases |actions|
  {
    if actions == [] then s == t
    else Enabled(c, s, actions[0]) && Run(c, Apply(c, s, actions[0]), actions[1..], t)
  }

  ghost predicate Reachable(c: Config, t: State) {
    exists s, actions :: Init(c, s) && Run(c, s, actions, t)
  }

  // ---------------------------------------------------------------------------
  // What a branch holds
  // ---------------------------------------------------------------------------

  function Positions(q: seq<Entry>): seq<nat> {
    if q == [] then []
    else (if q[0].Data? then [q[0].pos] else []) + Positions(q[1..])
  }

  predicate HasMarker(q: seq<Entry>) {
    exists k :: 0 <= k < |q| && q[k].Last?
  }

  /** Everything handed to the branch and not dropped: read already, then still queued. */
  function Contents(br: Branch): seq<nat> {
    br.received + Positions(br.queue)
  }

  function Range(lo: nat, hi: nat): seq<nat>
    requires lo <= hi
  {
    seq(hi - lo, i requires 0 <= i => lo + i)
  }

  ghost predicate AllBut(xs: seq<nat>, n: nat) {
    exists j :: 0 <= j < n && xs == Range(0, j) + Range(j + 1, n)
  }

  function Values<T>(source: seq<T>, xs: seq<nat>): seq<T>
    requires forall i :: 0 <= i < |xs| ==> xs[i] < |source|
  {
    seq(|xs|, i requires 0 <= i < |xs| => source[xs[i]])
  }

  lemma {:induction false} PositionsAppend(q: seq<Entry>, e: Entry)
    ensures Positions(q + [e]) == Positions(q) + if e.Data? then [e.pos] else []
  {
    if q == [] {
      assert [e][1..] == [];
    } else {
      assert (q + [e])[1..] == q[1..] + [e];
      PositionsAppend(q[1..], e);
      assert Positions(q + [e]) == (if q[0].Data? then [q[0].pos] else []) + Positions(q[1..] + [e]);
    }
  }

  lemma {:induction false} PositionsLength(q: seq<Entry>)
    ensures |Positions(q)| <= |q|
    ensures HasMarker(q) ==> |Positions(q)| < |q|
    ensures !HasMarker(q) ==> |Positions(q)| == |q|
  {
    if q != [] {
      PositionsLength(q[1..]);
      if HasMarker(q) && q[0].Data? {
        var k :| 0 <= k < |q| && q[k].Last?;
        assert q[1..][k - 1].Last?;
      }
      if HasMarker(q[1..]) {
        var k :| 0 <= k < |q[1..]| && q[1..][k].Last?;
        assert q[k + 1].Last?;
      }
    }
  }

  // ---------------------------------------------------------------------------
  // Invariants of every run
  // ---------------------------------------------------------------------------

  predicate WriterOk(c: Config, w: Writer) {
    w.at <= c.width && (w.at == c.width ==> w.phase == Check)
  }

  predicate PumpOk(c: Config, s: State) {
    match s.pump
    case NotStarted => s.pulled == 0
    case Pulling => true
    case Pulled => s.pulled > 0
    case Offering(b, phase) => s.pulled > 0 && b <= c.width && (phase != Loop ==> b < c.width)
    case Finishing(w) => WriterOk(c, w)
  }

  ghost predicate Shape(c: Config, s: State) {
    && ValidConfig(c)
    && |s.branches| == c.width
    && s.pulled <= c.items
    && PumpOk(c, s)
    && (forall i :: 0 <= i < |s.aborters| ==> WriterOk(c, s.aborters[i]))
    && (forall b :: 0 <= b < c.width ==> |s.branches[b].queue| <= c.cap)
    && (forall b :: 0 <= b < c.width ==> s.branches[b].closed.None? ==> s.branches[b].active)
    && (s.aborters != [] ==> s.stop)
  }

  lemma WriterStepShape(c: Config, stop: bool, br: Branch, w: Writer)
    requires ValidConfig(c) && |br.queue| <= c.cap && w.at < c.width
    ensures var (br', w') := WriterStep(c, stop, br, w);
            && |br'.queue| <= c.cap && WriterOk(c, w')
            && br'.closed == br.closed && br'.active == br.active && br'.received == br.received
  {
  }

  lemma ShapePump(c: Config, s: State)
    requires Shape(c, s) && Enabled(c, s, PumpStep)
    ensures Shape(c, PumpApply(c, s))
  {
    if s.pump.Finishing? {
      WriterStepShape(c, s.stop, s.branches[s.pump.writer.at], s.pump.writer);
    }
  }

  lemma ShapeStep(c: Config, s: State, a: Action)
    requires Shape(c, s) && Enabled(c, s, a)
    ensures Shape(c, Apply(c, s, a))
  {
    if a.PumpStep? {
      ShapePump(c, s);
    } else if a.AborterStep? {
      WriterStepShape(c, s.stop, s.branches[s.aborters[a.i].at], s.aborters[a.i]);
    }
  }

  /** The number of items the pump has finished offering to branch `b`. */
  function Offered(s: State, b: nat): int {
    if s.pump.Pulled? || (s.pump.Offering? && s.pump.at <= b) then s.pulled - 1 else s.pulled
  }

  /** In source order, without repetition, and only items below `limit`. */
  predicate OrderedBelow(xs: seq<nat>, limit: int) {
    && (forall i, j :: 0 <= i < j < |xs| ==> xs[i] < xs[j])
    && (forall i :: 0 <= i < |xs| ==> xs[i] < limit)
  }

  predicate OrderedAt(s: State, b: nat)
    requires b < |s.branches|
  {
    OrderedBelow(Contents(s.branches[b]), Offered(s, b))
  }

  ghost predicate Ordered(s: State) {
    forall b :: 0 <= b < |s.branches| ==> OrderedAt(s, b)
  }

  /** Dropping the oldest queued entry takes at most one item out of the contents. */
  lemma DropContents(br: Branch)
    requires br.queue != []
    ensures var n, xs := |br.received|, Contents(br);
            Contents(br.(queue := br.queue[1..])) ==
            if br.queue[0].Data? then xs[..n] + xs[n + 1..] else xs
  {
    assert Positions(br.queue) == (if br.queue[0].Data? then [br.queue[0].pos] else []) + Positions(br.queue[1..]);
  }

  lemma MarkContents(br: Branch, m: Marker)
    ensures Contents(br.(queue := br.queue + [Last(m)])) == Contents(br)
  {
    PositionsAppend(br.queue, Last(m));
  }

  lemma WithoutOneKeepsOrder(xs: seq<nat>, n: nat, limit: int)
    requires n < |xs| && OrderedBelow(xs, limit)
    ensures OrderedBelow(xs[..n] + xs[n + 1..], limit)
  {
    var ys := xs[..n] + xs[n + 1..];
    assert forall i :: 0 <= i < |ys| ==> ys[i] == xs[if i < n then i else i + 1];
  }

  lemma WriterKeepsOrder(c: Config, stop: bool, br: Branch, w: Writer, limit: int)
    requires OrderedBelow(Contents(br), limit)
    ensures OrderedBelow(Contents(WriterStep(c, stop, br, w).0), limit)
  {
    MarkContents(br, w.marker);
    if br.queue != [] {
      DropContents(br);
      if br.queue[0].Data? {
        WithoutOneKeepsOrder(Contents(br), |br.received|, limit);
      }
    }
  }

  lemma OfferKeepsOrder(br: Branch, p: nat)
    requires OrderedBelow(Contents(br), p)
    ensures OrderedBelow(Contents(br.(queue := br.queue + [Data(p)])), p + 1)
  {
    PositionsAppend(br.queue, Data(p));
    assert Contents(br.(queue := br.queue + [Data(p)])) == Contents(br) + [p];
  }

  lemma PullKeepsContents(br: Branch)
    requires br.queue != []
    ensures Contents(PullFrom(br)) == Contents(br)
  {
    assert Positions(br.queue) == (if br.queue[0].Data? then [br.queue[0].pos] else []) + Positions(br.queue[1..]);
  }

  lemma OrderedPump(c: Config, s: State, b: nat)
    requires Shape(c, s) && Enabled(c, s, PumpStep) && b < c.width && OrderedAt(s, b)
    ensures OrderedAt(PumpApply(c, s), b)
  {
    if s.pump.Finishing? {
      WriterKeepsOrder(c, s.stop, s.branches[b], s.pump.writer, Offered(s, b));
    } else if s.pump == Offering(b, Offer) {
      OfferKeepsOrder(s.branches[b], s.pulled - 1);
    }
  }

  lemma OrderedStep(c: Config, s: State, a: Action, b: nat)
    requires Shape(c, s) && Enabled(c, s, a) && b < c.width && OrderedAt(s, b)
    ensures OrderedAt(Apply(c, s, a), b)
  {
    if a.PumpStep? {
      OrderedPump(c, s, b);
    } else if a.AborterStep? {
      WriterKeepsOrder(c, s.stop, s.branches[b], s.aborters[a.i], Offered(s, b));
    } else if a == Pull(b) {
      PullKeepsContents(s.branches[b]);
    }
  }

  // --- Terminal markers ------------------------------------------------------

  ghost predicate Passed(s: State, b: nat) {
    || (s.pump.Finishing? && s.pump.writer.at > b)
    || exists i :: 0 <= i < |s.aborters| && s.aborters[i].at > b
  }

  ghost predicate Visited(s: State, b: nat) {
    || (s.pump.Finishing? && s.pump.writer.at == b)
    || exists i :: 0 <= i < |s.aborters| && s.aborters[i].at == b
  }

  /** An open branch that some writer has finished with holds a marker, unless another writer is
      still at it (that writer may have just dropped the marker, and will put its own). */
  ghost predicate Marked(s: State, b: nat)
    requires b < |s.branches|
  {
    s.branches[b].closed.None? ==> !Passed(s, b) || Visited(s, b) || HasMarker(s.branches[b].queue)
  }

  lemma MarkerAppended(q: seq<Entry>, e: Entry)
    ensures HasMarker(q + [e]) <==> HasMarker(q) || e.Last?
  {
    if HasMarker(q) {
      var k :| 0 <= k < |q| && q[k].Last?;
      assert (q + [e])[k].Last?;
    }
    assert (q + [e])[|q|] == e;
  }

  lemma MarkerBehind(q: seq<Entry>)
    requires q != [] && q[0].Data?
    ensures HasMarker(q) <==> HasMarker(q[1..])
  {
    if HasMarker(q) {
      var k :| 0 <= k < |q| && q[k].Last?;
      assert q[1..][k - 1].Last?;
    }
  }

  lemma MarkedByWriter(c: Config, s: State, s': State, w: Writer, w': Writer, b: nat)
    requires Shape(c, s) && b < c.width && Marked(s, b) && w.at < c.width && |s'.branches| == c.width
    requires WriterStep(c, s.stop, s.branches[w.at], w) == (s'.branches[w.at], w')
    requires b != w.at ==> s'.branches[b] == s.branches[b]
    requires b != w.at ==> (Passed(s', b) ==> Passed(s, b)) && (Visited(s, b) ==> Visited(s', b))
    requires w'.at == b ==> Visited(s', b)
    ensures Marked(s', b)
  {
    if b == w.at { MarkerAppended(s.branches[b].queue, Last(w.marker)); }
  }

  lemma MarkedPump(c: Config, s: State, b: nat)
    requires Shape(c, s) && Enabled(c, s, PumpStep) && b < c.width && Marked(s, b)
    ensures Marked(PumpApply(c, s), b)
  {
    var s' := PumpApply(c, s);
    if s.pump.Finishing? {
      MarkedByWriter(c, s, s', s.pump.writer, s'.pump.writer, b);
    } else if s.pump.Offering? && s.pump.phase == Offer {
      MarkerAppended(s.branches[s.pump.at].queue, Data(s.pulled - 1));
    }
  }

  lemma MarkedPull(c: Config, s: State, x: nat, b: nat)
    requires Shape(c, s) && Enabled(c, s, Pull(x)) && b < c.width && Marked(s, b)
    ensures Marked(Apply(c, s, Pull(x)), b)
  {
    if x == b && s.branches[b].queue[0].Data? { MarkerBehind(s.branches[b].queue); }
  }

  lemma MarkedStep(c: Config, s: State, a: Action, b: nat)
    requires Shape(c, s) && Enabled(c, s, a) && b < c.width && Marked(s, b)
    ensures Marked(Apply(c, s, a), b)
  {
    match a
    case Abort(m) =>
      assert forall i :: 0 <= i < |s.aborters| ==> Apply(c, s, a).aborters[i] == s.aborters[i];
    case PumpStep => MarkedPump(c, s, b);
    case AborterStep(i) =>
      var s' := Apply(c, s, a);
      assert forall j :: 0 <= j < |s.aborters| && j != i ==> s'.aborters[j] == s.aborters[j];
      MarkedByWriter(c, s, s', s.aborters[i], s'.aborters[i], b);
    case Pull(x) => MarkedPull(c, s, x, b);
    case _ =>
  }

  // --- The stop flag ---------------------------------------------------------

  /** Who sets the stop flag: an abort, the last branch to leave, or a failing source; nobody else. */
  predicate StopCause(c: Config, s: State) {
    s.stop <==>
      || s.aborters != []
      || (c.width > 0 && NoneActive(s.branches))
      || (s.pump.Finishing? && s.pump.writer.marker != Eof)
  }

  lemma StopCauseStep(c: Config, s: State, a: Action)
    requires Shape(c, s) && Enabled(c, s, a) && StopCause(c, s)
    ensures StopCause(c, Apply(c, s, a))
  {
    var s' := Apply(c, s, a);
    if !a.Leave? {
      assert forall b :: 0 <= b < c.width ==> s'.branches[b].active == s.branches[b].active;
    } else if NoneActive(s.branches) {
      assert NoneActive(s'.branches);
    }
  }

  // --- No abort: nothing is lost -----------------------------------------------

  function EndMarker(c: Config): Marker {
    if c.ending.Ends? then Eof else Raised(c.ending.e)
  }

  /** Without an external abort the stop flag and the pump's terminal phase have one cause each. */
  ghost predicate Calm(c: Config, s: State) {
    s.aborters == [] && !NoneActive(s.branches) ==>
      && (s.stop ==> s.pump.Finishing? && c.ending.Fails?)
      && (s.pump.Finishing? ==> s.pulled == c.items && s.pump.writer.marker == EndMarker(c))
  }

  lemma CalmStep(c: Config, s: State, a: Action)
    requires Shape(c, s) && Enabled(c, s, a) && Calm(c, s)
    ensures Calm(c, Apply(c, s, a))
  {
    var s' := Apply(c, s, a);
    assert |s'.branches| == |s.branches|;
    if NoneActive(s.branches) {
      assert forall b :: 0 <= b < |s.branches| ==> s'.branches[b].active == s.branches[b].active;
    }
  }

  function UpTo(n: int): (r: seq<nat>)
    ensures n >= 0 ==> |r| == n
  {
    if n <= 0 then [] else Range(0, n)
  }

  /** All the items, or all but one if the source failed. */
  ghost predicate Complete(c: Config, xs: seq<nat>) {
    xs == UpTo(c.items) || (c.ending.Fails? && AllBut(xs, c.items))
  }

  /** What an open branch holds, by where the pump is. */
  ghost predicate Intact(c: Config, s: State, b: nat)
    requires b < |s.branches|
  {
    var q, xs := s.branches[b].queue, Contents(s.branches[b]);
    if s.pump.Finishing? && b < s.pump.writer.at then
      q != [] && q[|q| - 1] == Last(EndMarker(c)) && (forall k :: 0 <= k < |q| - 1 ==> q[k].Data?) && Complete(c, xs)
    else if s.pump.Finishing? && b == s.pump.writer.at then
      !HasMarker(q) && (xs == UpTo(c.items) || (Complete(c, xs) && |q| < c.cap && s.pump.writer.phase != Full))
    else
      Holds(s.branches[b], Offered(s, b))
  }

  /** The first n items, and no marker yet. */
  ghost predicate Holds(br: Branch, n: int) {
    !HasMarker(br.queue) && Contents(br) == UpTo(n)
  }

  /** A beginning of all the items, or of all but one if the source failed. */
  ghost predicate Partial(c: Config, xs: seq<nat>) {
    exists all :: Complete(c, all) && xs <= all
  }

  ghost predicate Received(c: Config, br: Branch) {
    match br.closed
    case None => true
    case Some(Early) => Partial(c, br.received)
    case Some(Exhausted) => c.ending.Ends? && br.received == UpTo(c.items)
    case Some(Failed(e)) => c.ending == Fails(e) && Complete(c, br.received)
  }

  ghost predicate Lossless(c: Config, s: State, b: nat)
    requires b < |s.branches|
  {
    s.aborters == [] ==>
      && (s.branches[b].closed.None? ==> Intact(c, s, b))
      && Received(c, s.branches[b])
  }

  lemma OfferIntact(br: Branch, p: nat)
    requires Holds(br, p)
    ensures Holds(br.(queue := br.queue + [Data(p)]), p + 1)
  {
    MarkerAppended(br.queue, Data(p));
    PositionsAppend(br.queue, Data(p));
    assert Contents(br.(queue := br.queue + [Data(p)])) == Contents(br) + [p];
  }

  lemma FinishIntact(c: Config, s: State)
    requires Shape(c, s) && Enabled(c, s, PumpStep) && s.pump.Finishing? && Calm(c, s) && s.aborters == []
    requires var b := s.pump.writer.at; s.branches[b].closed.None? && Intact(c, s, b)
    ensures Intact(c, Apply(c, s, PumpStep), s.pump.writer.at)
  {
    var w := s.pump.writer;
    var br := s.branches[w.at];
    assert s.branches[w.at].active;
    match w.phase
    case Check =>
    case Put =>
      if |br.queue| < c.cap {
        MarkContents(br, w.marker);
      }
    case Full =>
      if br.queue != [] && c.ending.Fails? {
        DropContents(br);
        var n, xs := |br.received|, Contents(br);
        assert br.queue[0].Data?;
        MarkerBehind(br.queue);
        assert xs[..n] + xs[n + 1..] == Range(0, n) + Range(n + 1, c.items);
      }
  }

  lemma PullIntact(c: Config, s: State, b: nat)
    requires Shape(c, s) && Enabled(c, s, Pull(b)) && Intact(c, s, b)
    ensures var s' := Apply(c, s, Pull(b));
            (s'.branches[b].closed.None? ==> Intact(c, s', b)) && Received(c, s'.branches[b])
  {
    var br := s.branches[b];
    var q := br.queue;
    PullKeepsContents(br);
    if q[0].Data? {
      MarkerBehind(q);
    } else {
      assert |q| == 1;
    }
  }

  /** Closing early keeps what was received a beginning of what would have been. */
  lemma CloseIntact(c: Config, s: State, b: nat)
    requires Shape(c, s) && b < c.width && s.branches[b].closed.None? && s.branches[b].active && Intact(c, s, b)
    ensures Partial(c, s.branches[b].received)
  {
    var br := s.branches[b];
    assert br.received <= Contents(br);
    if !Complete(c, Contents(br)) {
      assert UpTo(Offered(s, b)) <= UpTo(c.items);
      assert Complete(c, UpTo(c.items));
    }
  }

  /** A step that leaves the branch and what it has been offered alone. */
  lemma UntouchedIntact(c: Config, s: State, s': State, b: nat)
    requires b < |s.branches| == |s'.branches| && s'.branches[b] == s.branches[b] && Intact(c, s, b)
    requires !s.pump.Finishing? && !s'.pump.Finishing? && Offered(s', b) == Offered(s, b)
    ensures Intact(c, s', b)
  {
  }

  lemma HoldsIntact(c: Config, s: State, b: nat, br: Branch)
    requires b < |s.branches| && s.branches[b] == br && !s.pump.Finishing? && Holds(br, Offered(s, b))
    ensures Intact(c, s, b)
  {
  }

  lemma OfferedIntact(c: Config, s: State, b: nat)
    requires Shape(c, s) && Enabled(c, s, PumpStep) && b < c.width
    requires s.pump == Offering(b, Offer) && |s.branches[b].queue| < c.cap && s.pulled > 0
    requires Holds(s.branches[b], s.pulled - 1)
    ensures Intact(c, PumpApply(c, s), b)
  {
    var br, p := s.branches[b], s.pulled - 1;
    OfferIntact(br, p);
    PutApply(c, s, b);
    HoldsIntact(c, PumpApply(c, s), b, br.(queue := br.queue + [Data(p)]));
  }

  lemma PutApply(c: Config, s: State, b: nat)
    requires Shape(c, s) && Enabled(c, s, PumpStep) && b < c.width
    requires s.pump == Offering(b, Offer) && |s.branches[b].queue| < c.cap && s.pulled > 0
    ensures var s' := PumpApply(c, s);
      && |s'.branches| == |s.branches| && !s'.pump.Finishing? && Offered(s', b) == s.pulled
      && s'.branches[b] == s.branches[b].(queue := s.branches[b].queue + [Data(s.pulled - 1)])
  {
  }

  /** Only a put that succeeds changes a branch and what it has been offered. */
  lemma OfferTouchesOne(c: Config, s: State, b: nat)
    requires Shape(c, s) && Enabled(c, s, PumpStep) && s.pump.Offering? && !s.stop && b < c.width
    requires s.branches[b].active && (s.pump.phase == Offer ==> s.pulled > 0)
    requires !(s.pump == Offering(b, Offer) && |s.branches[b].queue| < c.cap)
    ensures var s' := PumpApply(c, s);
      && |s'.branches| == |s.branches| && s'.branches[b] == s.branches[b]
      && !s'.pump.Finishing? && Offered(s', b) == Offered(s, b)
  {
  }

  lemma OfferingIntact(c: Config, s: State, b: nat)
    requires Shape(c, s) && Enabled(c, s, PumpStep) && Calm(c, s) && s.aborters == [] && b < c.width
    requires s.branches[b].closed.None? && Intact(c, s, b) && s.pump.Offering?
    ensures Intact(c, PumpApply(c, s), b)
  {
    assert s.branches[b].active;
    if s.pump == Offering(b, Offer) && |s.branches[b].queue| < c.cap {
      OfferedIntact(c, s, b);
    } else {
      OfferTouchesOne(c, s, b);
      UntouchedIntact(c, s, PumpApply(c, s), b);
    }
  }

  lemma PullingIntact(c: Config, s: State, b: nat)
    requires Shape(c, s) && Enabled(c, s, PumpStep) && Calm(c, s) && s.aborters == [] && b < c.width
    requires s.branches[b].closed.None? && Intact(c, s, b) && (s.pump.Pulling? || s.pump.Pulled?)
    ensures Intact(c, PumpApply(c, s), b)
  {
    assert s.branches[b].active;
  }

  lemma PumpIntact(c: Config, s: State, b: nat)
    requires Shape(c, s) && Enabled(c, s, PumpStep) && Calm(c, s) && s.aborters == [] && b < c.width
    requires s.branches[b].closed.None? && Intact(c, s, b)
    ensures Intact(c, PumpApply(c, s), b)
  {
    if s.pump.Offering? {
      OfferingIntact(c, s, b);
    } else if s.pump.Finishing? {
      FinishingIntact(c, s, b);
    } else {
      PullingIntact(c, s, b);
    }
  }

  lemma FinishingIntact(c: Config, s: State, b: nat)
    requires Shape(c, s) && Enabled(c, s, PumpStep) && Calm(c, s) && s.aborters == [] && b < c.width
    requires s.branches[b].closed.None? && Intact(c, s, b) && s.pump.Finishing?
    ensures Intact(c, PumpApply(c, s), b)
  {
    assert s.branches[b].active;
    if s.pump.writer.at == b {
      FinishIntact(c, s);
    } else {
      assert PumpApply(c, s).branches[b] == s.branches[b];
    }
  }

  lemma LosslessPump(c: Config, s: State, b: nat)
    requires Shape(c, s) && Enabled(c, s, PumpStep) && Calm(c, s) && b < c.width && Lossless(c, s, b)
    ensures Lossless(c, PumpApply(c, s), b)
  {
    if s.aborters == [] {
      if s.pump.Finishing? {
        WriterStepShape(c, s.stop, s.branches[s.pump.writer.at], s.pump.writer);
      }
      if s.branches[b].closed.None? { PumpIntact(c, s, b); }
    }
  }

  lemma LosslessElsewhere(c: Config, s: State, s': State, b: nat)
    requires b < |s.branches| && b < |s'.branches| && s'.branches[b] == s.branches[b]
    requires s'.pump == s.pump && s'.pulled == s.pulled && (s'.aborters == [] ==> s.aborters == [])
    requires Lossless(c, s, b)
    ensures Lossless(c, s', b)
  {
  }

  lemma LosslessStart(c: Config, s: State, b: nat)
    requires Shape(c, s) && Enabled(c, s, Start) && b < c.width && Lossless(c, s, b)
    ensures Lossless(c, Apply(c, s, Start), b)
  {
  }

  lemma LosslessPull(c: Config, s: State, b: nat)
    requires Shape(c, s) && Enabled(c, s, Pull(b)) && Lossless(c, s, b)
    ensures Lossless(c, Apply(c, s, Pull(b)), b)
  {
    if s.aborters == [] { PullIntact(c, s, b); }
  }

  lemma LosslessClose(c: Config, s: State, b: nat)
    requires Shape(c, s) && Enabled(c, s, Close(b)) && Lossless(c, s, b)
    ensures Lossless(c, Apply(c, s, Close(b)), b)
  {
    if s.aborters == [] { CloseIntact(c, s, b); }
  }

  lemma LosslessStep(c: Config, s: State, a: Action, b: nat)
    requires Shape(c, s) && Enabled(c, s, a) && Calm(c, s) && b < c.width && Lossless(c, s, b)
    ensures Lossless(c, Apply(c, s, a), b)
  {
    match a
    case Start => LosslessStart(c, s, b);
    case PumpStep => LosslessPump(c, s, b);
    case Abort(_) =>
    case AborterStep(_) =>
    case Pull(x) =>
      if x == b { LosslessPull(c, s, b); } else { LosslessElsewhere(c, s, Apply(c, s, a), b); }
    case Close(x) =>
      if x == b { LosslessClose(c, s, b); } else { LosslessElsewhere(c, s, Apply(c, s, a), b); }
    case Leave(x) =>
      if x != b { LosslessElsewhere(c, s, Apply(c, s, a), b); }
  }

  // ---------------------------------------------------------------------------
  // Reading a branch to its end
  // ---------------------------------------------------------------------------

  /** At most `limit` calls of `__next__`, stopping once the branch is closed. */
  function Drain(br: Branch, limit: nat): Branch
    decreases limit
  {
    if limit == 0 || br.closed.Some? || br.queue == [] then br else Drain(PullFrom(br), limit - 1)
  }

  lemma {:induction false} DrainReachesMarker(br: Branch, limit: nat)
    requires br.closed.None? && HasMarker(br.queue) && |br.queue| <= limit
    ensures Drain(br, limit).closed.Some? && Drain(br, limit).closed != Some(Early)
    decreases limit
  {
    if br.queue[0].Data? {
      MarkerBehind(br.queue);
      DrainReachesMarker(PullFrom(br), limit - 1);
    }
  }

  lemma {:induction false} DrainToLast(br: Branch, limit: nat)
    requires br.closed.None? && br.queue != [] && |br.queue| <= limit
    requires br.queue[|br.queue| - 1].Last? && forall k :: 0 <= k < |br.queue| - 1 ==> br.queue[k].Data?
    ensures var m := br.queue[|br.queue| - 1].marker;
            var t := Drain(br, limit);
            && t.received == Contents(br)
            && t.closed == Some(if m.Eof? then Exhausted else Failed(m.e))
    decreases limit
  {
    PullKeepsContents(br);
    if br.queue[0].Data? {
      DrainToLast(PullFrom(br), limit - 1);
    }
  }

  // ---------------------------------------------------------------------------
  // Theorems about every reachable state
  // ---------------------------------------------------------------------------

  ghost predicate Good(c: Config, s: State) {
    && Shape(c, s) && Ordered(s) && StopCause(c, s) && Calm(c, s)
    && (forall b :: 0 <= b < |s.branches| ==> Marked(s, b))
    && (forall b :: 0 <= b < |s.branches| ==> Lossless(c, s, b))
  }

  lemma InitGood(c: Config, s: State)
    requires Init(c, s)
    ensures Good(c, s)
  {
    if c.width > 0 { assert s.branches[0].active; }
  }

  lemma StepGood(c: Config, s: State, a: Action)
    requires Good(c, s) && Enabled(c, s, a)
    ensures Good(c, Apply(c, s, a))
  {
    ShapeStep(c, s, a);
    StopCauseStep(c, s, a);
    CalmStep(c, s, a);
    forall b | 0 <= b < c.width
      ensures OrderedAt(Apply(c, s, a), b) && Marked(Apply(c, s, a), b) && Lossless(c, Apply(c, s, a), b)
    {
      assert OrderedAt(s, b);
      OrderedStep(c, s, a, b);
      MarkedStep(c, s, a, b);
      LosslessStep(c, s, a, b);
    }
  }

  lemma {:induction false} RunGood(c: Config, s: State, actions: seq<Action>, t: State)
    requires Good(c, s) && Run(c, s, actions, t)
    ensures Good(c, t)
    decreases |actions|
  {
    if actions != [] {
      StepGood(c, s, actions[0]);
      RunGood(c, Apply(c, s, actions[0]), actions[1..], t);
    }
  }

  lemma ReachableGood(c: Config, t: State)
    requires Reachable(c, t)
    ensures Good(c, t)
  {
    var s, actions :| Init(c, s) && Run(c, s, actions, t);
    InitGood(c, s);
    RunGood(c, s, actions, t);
  }

  /** A lossless tee: with no abort and no source failure, an open branch has read and queued
      exactly a prefix of the source that lacks at most the item being handed over, a branch that
      ended by exhaustion has read the whole source, and one closed early a prefix of it. */
  lemma LosslessTee<T>(c: Config, s: State, b: nat, source: seq<T>)
    requires Reachable(c, s) && s.aborters == [] && c.ending.Ends? && |source| == c.items && b < c.width
    ensures |s.branches| == c.width
    ensures var br := s.branches[b];
      match br.closed
      case None =>
        exists k: nat ::
          && s.pulled - 1 <= k <= s.pulled <= c.items
          && |Contents(br)| == k
          && (forall i :: 0 <= i < k ==> Contents(br)[i] < c.items)
          && Values(source, Contents(br)) == source[..k]
      case Some(Exhausted) =>
        && (forall i :: 0 <= i < |br.received| ==> br.received[i] < c.items)
        && Values(source, br.received) == source
      case Some(Early) =>
        && |br.received| <= c.items
        && (forall i :: 0 <= i < |br.received| ==> br.received[i] < c.items)
        && Values(source, br.received) == source[..|br.received|]
      case Some(Failed(_)) => false
  {
    ReachableGood(c, s);
    var br := s.branches[b];
    assert Lossless(c, s, b);
    if br.closed == Some(Early) {
      assert br.received <= UpTo(c.items);
    }
    if br.closed.None? {
      var k := |Contents(br)|;
      assert Values(source, Contents(br)) == source[..k];
    }
  }

  /** Whatever is aborted, closed or failing: what a consumer has read, followed by what is still
      queued for it, lists distinct items of the source in source order. */
  lemma AlwaysInOrder(c: Config, s: State, b: nat)
    requires Reachable(c, s) && b < c.width
    ensures |s.branches| == c.width
    ensures OrderedBelow(Contents(s.branches[b]), s.pulled)
    ensures OrderedBelow(s.branches[b].received, s.pulled)
    ensures s.pulled <= c.items
  {
    ReachableGood(c, s);
    var br := s.branches[b];
    assert OrderedAt(s, b);
    assert forall i :: 0 <= i < |br.received| ==> br.received[i] == Contents(br)[i];
  }

  ghost predicate WritersFinished(c: Config, s: State) {
    && (s.pump.NotStarted? || (s.pump.Finishing? && s.pump.writer.at == c.width))
    && (s.pump.NotStarted? ==> s.aborters != [])
    && forall i :: 0 <= i < |s.aborters| ==> s.aborters[i].at == c.width
  }

  /** Termination is never lost: once the pump and every aborter have finished their terminal
      writes, an open branch holds a marker, so a late reader stops within `max_in_flight` reads. */
  lemma TerminationNeverLost(c: Config, s: State, b: nat)
    requires Reachable(c, s) && WritersFinished(c, s) && b < c.width
    ensures |s.branches| == c.width
    ensures s.branches[b].closed.None? ==> HasMarker(s.branches[b].queue)
    ensures s.branches[b].closed.None? ==>
      Drain(s.branches[b], c.cap).closed.Some? && Drain(s.branches[b], c.cap).closed != Some(Early)
  {
    ReachableGood(c, s);
    assert Marked(s, b);
    if s.branches[b].closed.None? {
      if s.pump.NotStarted? { assert s.aborters[0].at > b; }
      DrainReachesMarker(s.branches[b], c.cap);
    }
  }

  /** On a source failure with no external abort, every branch that ended other than by its own
      early close ended by raising that exception, and so does every branch still open once the
      pump has finished; each received every item pulled before the failure, less at most one.  A
      branch closed early received a beginning of that. */
  lemma FailureReachesEveryBranch(c: Config, s: State, b: nat)
    requires Reachable(c, s) && s.aborters == [] && c.ending.Fails? && b < c.width
    ensures |s.branches| == c.width
    ensures var br := s.branches[b];
      match br.closed
      case None =>
        s.pump.Finishing? && s.pump.writer.at == c.width ==>
          Drain(br, c.cap).closed == Some(Failed(c.ending.e)) && Complete(c, Drain(br, c.cap).received)
      case Some(Early) => Partial(c, br.received)
      case Some(r) => r == Failed(c.ending.e) && Complete(c, br.received)
  {
    ReachableGood(c, s);
    var br := s.branches[b];
    assert Lossless(c, s, b);
    if br.closed.None? && s.pump.Finishing? && s.pump.writer.at == c.width {
      DrainToLast(br, c.cap);
    }
  }

  lemma LengthBounds(c: Config, s: State, b: nat)
    requires Good(c, s) && b < c.width && Intact(c, s, b) && s.aborters == [] && s.branches[b].closed.None?
    ensures 0 <= s.pulled - |s.branches[b].received| <= c.cap + 1
  {
    var br := s.branches[b];
    assert br.active;
    PositionsLength(br.queue);
    assert |Contents(br)| == |br.received| + |Positions(br.queue)|;
    if s.pump.Finishing? && b < s.pump.writer.at {
      assert br.queue[|br.queue| - 1].Last?;
    }
    assert Complete(c, Contents(br)) ==> |Contents(br)| >= c.items - 1 && |Contents(br)| <= c.items;
  }

  /** Bounded look-ahead and skew: with no abort the pump is at most `max_in_flight + 1` items
      ahead of any open branch, so two open branches never differ by more than that. */
  lemma BoundedLookAhead(c: Config, s: State, a: nat, b: nat)
    requires Reachable(c, s) && s.aborters == [] && a < c.width && b < c.width
    requires |s.branches| == c.width && s.branches[a].closed.None? && s.branches[b].closed.None?
    ensures 0 <= s.pulled - |s.branches[a].received| <= c.cap + 1
    ensures |s.branches[a].received| - |s.branches[b].received| <= c.cap + 1
  {
    ReachableGood(c, s);
    assert Lossless(c, s, a) && Lossless(c, s, b);
    LengthBounds(c, s, a);
    LengthBounds(c, s, b);
  }
}
