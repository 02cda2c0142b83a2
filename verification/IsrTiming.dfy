/**
 Answers on the wire: in every run each one is driven whole, and starts in its slot after the last
 dominant sample of its query (isr.rs, backward_window.rs, fsm.rs).
 */
module IsrTiming {
  import opened Wrappers
  import opened HalfBits
  import opened Fsm
  import opened PhaseSearch
  import opened RxDecode
  import opened PhySteps
  import opened Isr
  import opened IsrBase
  import opened IsrSniffer
  import opened IsrAnswers
  import opened RoundTrip

  const ANSWER_TICKS := TX_HALF_BIT_TICKS * BACKWARD_FRAME_HALF_BITS

  /** Sample `e - 1` is dominant and the next sixteen are not: a frame ended there. */
  predicate EdgeAt(wire: seq<Instant>, e: int) {
    && 0 < e && e + RX_IDLE_LINE_HIGH_TICKS <= |wire| && !wire[e - 1].high
    && forall i | e <= i < e + RX_IDLE_LINE_HIGH_TICKS :: wire[i].high
  }

  /** The recessive run the transceiver counts is the one the wire ends in. */
  predicate RunOnWire(p: Phy, wire: seq<Instant>) {
    && p.highRun <= |wire| && (forall i | |wire| - p.highRun <= i < |wire| :: wire[i].high)
    && (p.highRun < |wire| && p.highRun < 0xFFFF ==> !wire[|wire| - 1 - p.highRun].high)
  }

  predicate LineInv(p: Phy, k: Clock) {
    && |k.wire| == k.now && RunOnWire(p, k.wire) && RunsAgree(p) && (p.state.Rx? ==> p.highRun < k.now)
    && EdgesInv(k)
  }

  /** Every forward capture ended at an edge of the wire, and the last one is the edge answers are timed from. */
  predicate EdgesInv(k: Clock) {
    && |k.edges| == k.captured && (k.captured > 0 ==> k.edge == k.edges[k.captured - 1])
    && forall i | 0 <= i < |k.edges| :: EdgeAt(k.wire, k.edges[i])
  }

  ghost predicate AnswerFrame(f: Frame) {
    exists v: u8 :: f == EncodedFrame(v, BACKWARD_DATA_BITS)
  }

  /** The edge of the capture that was counted as the `captured`th. */
  predicate QueryEdge(k: Clock, captured: nat, edge: int) {
    0 < captured <= |k.edges| && edge == k.edges[captured - 1]
  }

  ghost predicate QueryInv(c: Core) {
    && (c.sniffer.held.Some? ==> QueryEdge(c.clock, c.sniffer.held.value.captured, c.sniffer.held.value.edge))
    && (c.staged.Some? ==> QueryEdge(c.clock, c.staged.value.captured, c.staged.value.edge)
                           && AnswerFrame(c.staged.value.frame))
  }

  /** What an answer is to drive, as far as the wire goes. */
  predicate Drives(wire: seq<Instant>, n: ArmNote)
    requires Sendable(n.frame)
  {
    forall t | 1 <= t <= ANSWER_TICKS && n.tick + t <= |wire| :: wire[n.tick + t - 1].out == OutAt(n.frame, t)
  }

  ghost predicate NoteOk(k: Clock, n: ArmNote) {
    && QueryEdge(k, n.queryCaptured, n.edge) && EdgeAt(k.wire, n.edge) && n.since == n.tick - n.edge
    && AnswerFrame(n.frame) && Sendable(n.frame) && Drives(k.wire, n)
  }

  ghost predicate NotesInv(c: Core) {
    && (forall i | 0 <= i < |c.tally.arms| :: NoteOk(c.clock, c.tally.arms[i]))
    && (forall i | 0 <= i < |c.tally.arms| - (if c.session.isAnswer then 1 else 0) ::
          c.tally.arms[i].tick + ANSWER_TICKS <= c.clock.now)
    && (c.session.isAnswer ==>
          && c.tally.arms != []
          && var n := c.tally.arms[|c.tally.arms| - 1];
             n.tick <= c.clock.now && Answering(c, n.frame, c.clock.now - n.tick))
  }

  ghost predicate TimingInv(c: Core) {
    LineInv(c.phy, c.clock) && QueryInv(c) && NotesInv(c)
  }

  /** A note speaks of the wire and of the edges up to its query. */
  lemma NotesKept(arms: seq<ArmNote>, k: Clock, k': Clock)
    requires k'.wire == k.wire && k.edges <= k'.edges
    requires forall i | 0 <= i < |arms| :: NoteOk(k, arms[i])
    ensures forall i | 0 <= i < |arms| :: NoteOk(k', arms[i])
  {
    hide EdgeAt, AnswerFrame, Drives;
  }

  // ---- Arming ----

  lemma CancelTiming(c: Core)
    requires TimingInv(c)
    ensures TimingInv(ApplyRequestedCancel(c))
  {
    hide LineInv, NoteOk, AnswerFrame, Tags, SendingAt;
  }

  lemma NewNoteOk(s: Staged, k: Clock, since: nat)
    requires EdgesInv(k) && QueryEdge(k, s.captured, s.edge) && s.captured == k.captured
    requires since == k.now - k.edge && |k.wire| == k.now
    requires AnswerFrame(s.frame) && Sendable(s.frame)
    ensures NoteOk(k, NoteOf(s, k, since))
  {
    hide EdgeAt, AnswerFrame;
  }

  lemma FireTiming(c: Core, since: nat, late: bool, over: bool)
    requires Rest(c) && TimingInv(c) && c.staged.Some? && !c.phy.busy && (c.phy.state.Idle? || c.phy.state.Rx?)
    requires c.staged.value.captured == c.clock.captured && since == c.clock.now - c.clock.edge
    ensures TimingInv(FireStagedAnswer(c, since, late, over))
  {
    hide HeldOk, AllSendable, AnswerFrame, NoteOk, OutAt, SendingAt;
    var a := FireStagedAnswer(c, since, late, over);
    FiringStartsAnswer(c, since, late, over);
    NewNoteOk(c.staged.value, c.clock, since);
    assert a.tally.arms == c.tally.arms + [NoteOf(c.staged.value, c.clock, since)];
    assert !c.session.isAnswer;
  }

  lemma TryArmTiming(c: Core)
    requires Rest(c) && !c.phy.busy && AnswerInv(c) && TimingInv(c)
    ensures TimingInv(TryArm(c).0)
  {
    hide FireStagedAnswer, LineInv, Sound, HeldOk, AllSendable, NoteOk, AnswerFrame, SendingAt, EpochInv, TallyInv, HeldSince;
    hide LineDebouncing, ReceptionBeganInTheBackwardWindow;
    if c.staged.Some? && c.staged.value.epoch == c.clock.busEpoch {
      var since := TicksSinceForwardEdge(c.clock);
      EpochsAgree(c);
      LineUnderStarts(c);
      if GateAt(since).Arm? && !LineUnder(c).LineBusy? {
        FireTiming(c, since, GateAt(since).late, LineUnder(c).LineBackward?);
      }
    }
  }

  lemma ArmForwardTiming(c: Core)
    requires Rest(c) && c.phy.state.Idle? && c.session.window == 0 && !c.phy.busy && TimingInv(c)
    ensures Armable(c) && TimingInv(ArmForward(c))
  {
    hide ArmForward, HeldOk, AllSendable, NoteOk, AnswerFrame, EdgeAt;
    ArmReady(c);
    ArmForwardBase(c);
    NotesKept(c.tally.arms, c.clock, ArmForward(c).clock);
  }

  lemma ArmPendingTiming(c: Core)
    requires Rest(c) && AnswerInv(c) && TimingInv(c)
    ensures Armable(c) && TimingInv(ArmPending(c))
  {
    hide Rest, ApplyRequestedCancel, TryArm, ArmForward, AnswerInv, TimingInv;
    ArmReady(c);
    CancelBase(c);
    CancelAnswers(c);
    CancelTiming(c);
    var k := ApplyRequestedCancel(c);
    ArmReady(k);
    if !k.phy.busy {
      TryArmBase(k);
      TryArmTiming(k);
      var (a, tried) := TryArm(k);
      NotStagedIsIdle(k);
      if tried.NotStaged? && a.session.window == 0 && a.phy.state.Idle? && !LineDebouncing(a.phy) {
        ArmReady(a);
        ArmForwardTiming(a);
      }
    }
  }

  lemma NotStagedIsIdle(k: Core)
    requires Armable(k) && !k.phy.busy
    ensures var (a, tried) := TryArm(k); tried.NotStaged? ==> a.phy == k.phy
  {
    hide LineUnder, GateAt;
  }

  // ---- The tick on the wire ----

  lemma RunGrows(p: Phy, wire: seq<Instant>, high: bool, out: bool)
    requires RunOnWire(p, wire)
    ensures RunOnWire(CountRuns(p, high), wire + [Instant(high, out)])
  {
  }

  lemma TickCountsRuns(p: Phy, high: bool)
    requires WellFormed(p)
    ensures Tick(p, high).highRun == CountRuns(p, high).highRun
    ensures Tick(p, high).state.Rx? ==> p.state.Rx? || !high
  {
    hide Record, Finish, Dominant, TickIdle;
    var c := CountRuns(p, high);
    IdleKeepsRuns(c, high);
    IdleKeepsRuns(SetBusIdle(c.(tx := c.tx.(yielded := true, armed := 0))), high);
    IdleKeepsRuns(SetBusIdle(c.(tx := c.tx.(slot := (c.tx.slot + 1) % 0x100, idleAfterBreak := high))), high);
  }

  lemma IdleKeepsRuns(p: Phy, high: bool)
    requires WellFormed(p)
    ensures TickIdle(p, high).highRun == p.highRun
    ensures TickIdle(p, high).state.Rx? ==> p.state.Rx? || !high
  {
    hide ReplayLow;
    var e := p.(debounce := SatAdd(p.debounce, 0xFF));
    ReplayKeepsRuns(EnterRx(e), e.debounce);
  }

  lemma {:induction false} ReplayKeepsRuns(p: Phy, ticks: nat)
    requires WellFormed(p)
    ensures ReplayLow(p, ticks).highRun == p.highRun
    decreases ticks
  {
    hide Record, Finish;
    if ticks > 0 {
      ReplayKeepsRuns(TickRx(p, false), ticks - 1);
    }
  }

  lemma EdgeStays(wire: seq<Instant>, next: Instant, e: int)
    requires EdgeAt(wire, e)
    ensures EdgeAt(wire + [next], e)
  {
  }

  lemma EdgesStay(k: Clock, k': Clock, next: Instant)
    requires EdgesInv(k) && k'.wire == k.wire + [next]
    requires k'.edges == k.edges && k'.captured == k.captured && k'.edge == k.edge
    ensures EdgesInv(k')
  {
    hide EdgeAt;
    forall i | 0 <= i < |k.edges| ensures EdgeAt(k'.wire, k.edges[i]) {
      EdgeStays(k.wire, next, k.edges[i]);
    }
  }

  /** What is known of the line depends on its run and its levels alone. */
  lemma LineStays(p: Phy, k: Clock, q: Phy, k': Clock)
    requires LineInv(p, k) && q.highRun == p.highRun && q.state == p.state && q.rx.idle == p.rx.idle
    requires k'.now == k.now && k'.wire == k.wire && k'.captured == k.captured && k'.edge == k.edge && k'.edges == k.edges
    ensures LineInv(q, k')
  {
    hide EdgeAt;
  }

  /** The line after a tick, and where the edge is when a capture completes in it. */
  lemma LineTick(a: Core, s: Core, high: bool)
    requires Rest(a) && LineInv(a.phy, a.clock) && Sampled(a, s) && s.phy == Tick(a.phy, high)
    requires s.clock.wire == a.clock.wire + [Instant(high, s.phy.out)]
    ensures LineInv(s.phy, s.clock)
    ensures s.phy.rx.state.Completed? ==>
              s.phy.idleCount == RX_IDLE_LINE_HIGH_TICKS && EdgeAt(s.clock.wire, s.clock.now - RX_IDLE_LINE_HIGH_TICKS)
  {
    hide Tick, HeldOk, AllSendable, Sendable;
    RunGrows(a.phy, a.clock.wire, high, s.phy.out);
    TickCountsRuns(a.phy, high);
    CompletesSixteenAfter(a.phy, high);
    EdgesStay(a.clock, s.clock, Instant(high, s.phy.out));
    if s.phy.rx.state.Completed? {
      CompletesInRx(a, high);
    }
  }

  lemma CompletesInRx(a: Core, high: bool)
    requires Rest(a) && Tick(a.phy, high).rx.state.Completed?
    ensures a.phy.state.Rx?
  {
    hide Tick, HeldOk, AllSendable, Sendable;
    if a.phy.busy {
      SendingTick(a.phy, high);
    } else {
      ListeningTick(a.phy, high);
    }
  }

  // ---- The answers through a tick ----

  lemma NoteStays(k: Clock, k': Clock, next: Instant, n: ArmNote)
    requires NoteOk(k, n) && n.tick + ANSWER_TICKS <= |k.wire| && k'.wire == k.wire + [next] && k'.edges == k.edges
    ensures NoteOk(k', n)
  {
    hide AnswerFrame, OutAt, Sendable;
    EdgeStays(k.wire, next, n.edge);
  }

  lemma NoteGrows(k: Clock, k': Clock, next: Instant, n: ArmNote)
    requires NoteOk(k, n) && k'.wire == k.wire + [next] && k'.edges == k.edges
    requires n.tick <= |k.wire| && next.out == OutAt(n.frame, |k.wire| + 1 - n.tick)
    ensures NoteOk(k', n)
  {
    hide AnswerFrame, OutAt, Sendable;
    EdgeStays(k.wire, next, n.edge);
    forall t | 1 <= t <= ANSWER_TICKS && n.tick + t <= |k'.wire|
      ensures k'.wire[n.tick + t - 1].out == OutAt(n.frame, t)
    {
      if n.tick + t <= |k.wire| {
        assert k'.wire[n.tick + t - 1] == k.wire[n.tick + t - 1];
      }
    }
  }

  /** A tick of the answer under way: it goes on, or has driven its last half-bit. */
  lemma AnswerTick(a: Core, high: bool, f: Frame, t: nat)
    requires Rest(a) && Answering(a, f, t)
    ensures var q := Tick(a.phy, high);
            && SendingAt(q, f, t + 1) && q.out == OutAt(f, t + 1)
            && (q.busy <==> t < ANSWER_TICKS) && t <= ANSWER_TICKS && f.length == BACKWARD_FRAME_HALF_BITS
  {
    hide Tick, HeldOk, AllSendable, Dominant;
    AnswerStep(a.phy, f, t, high);
    if t < ANSWER_TICKS {
      AnswerStaysBusy(a.phy, f, t, high);
    }
  }

  lemma NotesTick(a: Core, s: Core, high: bool)
    requires Rest(a) && NotesInv(a) && |a.clock.wire| == a.clock.now
    requires Sampled(a, s) && s.phy == Tick(a.phy, high) && s.clock.wire == a.clock.wire + [Instant(high, s.phy.out)]
    ensures forall i | 0 <= i < |s.tally.arms| :: NoteOk(s.clock, s.tally.arms[i])
    ensures forall i | 0 <= i < |s.tally.arms| - (if s.session.isAnswer then 1 else 0) ::
              s.tally.arms[i].tick + ANSWER_TICKS <= s.clock.now
    ensures s.session.isAnswer ==>
              && s.tally.arms != []
              && var n := s.tally.arms[|s.tally.arms| - 1];
                 && n.tick < s.clock.now
                 && (if s.phy.busy then Answering(s, n.frame, s.clock.now - n.tick) else n.tick + ANSWER_TICKS <= s.clock.now)
  {
    hide Tick, NoteOk, SendingAt, OutAt, Rest;
    var arms, next := a.tally.arms, Instant(high, s.phy.out);
    if a.session.isAnswer {
      var n := arms[|arms| - 1];
      AnswerTick(a, high, n.frame, a.clock.now - n.tick);
      NoteFrame(a.clock, n);
      NoteGrows(a.clock, s.clock, next, n);
    }
    forall i | 0 <= i < |arms| - (if a.session.isAnswer then 1 else 0)
      ensures NoteOk(s.clock, arms[i])
    {
      NoteStays(a.clock, s.clock, next, arms[i]);
    }
  }

  lemma NoteFrame(k: Clock, n: ArmNote)
    requires NoteOk(k, n)
    ensures Sendable(n.frame)
  {
  }

  lemma ConcludeTiming(a: Core, s: Core, high: bool)
    requires Rest(a) && TimingInv(a) && Sampled(a, s) && s.phy == Tick(a.phy, high)
    requires s.clock.wire == a.clock.wire + [Instant(high, s.phy.out)]
    ensures var k := Conclude(s, a.phy.busy);
            && TimingInv(k)
            && (k.phy.rx.state.Completed? ==>
                  k.phy.idleCount == RX_IDLE_LINE_HIGH_TICKS && EdgeAt(k.clock.wire, k.clock.now - RX_IDLE_LINE_HIGH_TICKS))
  {
    hide Tick, NoteOk, SendingAt, AnswerFrame, EdgeAt, RunOnWire, HeldOk, AllSendable, Sound;
    LineTick(a, s, high);
    NotesTick(a, s, high);
    if a.phy.busy && !s.phy.busy {
      SendingTick(a.phy, high);
      CompletionTiming(a, s);
      var k := ReportCompletion(s);
      LineStays(s.phy, s.clock, k.phy, k.clock);
      NotesKept(s.tally.arms, s.clock, k.clock);
    } else if a.session.isAnswer {
      AnswerIsBusy(a);
    }
  }

  /** The poll at the end of a transmission reads flags only. */
  lemma CompletionTiming(a: Core, s: Core)
    requires Rest(a) && Ended(a, s)
    ensures var k := ReportCompletion(s);
            && SameLine(k.phy, s.phy) && k.staged == s.staged && k.sniffer == s.sniffer && !k.session.isAnswer
            && k.tally.arms == s.tally.arms
            && k.clock == s.clock.(busEpoch := k.clock.busEpoch, sent := k.clock.sent)
  {
    hide Tags, Push, Rest, Sound, HeldOk, AllSendable;
    CompletionBase(a, s);
  }

  // ---- Captures ----

  lemma StepHeldTiming(k: Core, answer: Option<u8>)
    requires Base(k) && TimingInv(k)
    ensures TimingInv(StepHeld(k, answer)) && StepHeld(k, answer).clock == k.clock
  {
    hide SearchStep, LineInv, NoteOk, SendingAt, Base, EncodedFrame, EventWindow;
    BaseHolds(k);
  }

  lemma BaseHolds(k: Core)
    requires Base(k)
    ensures HeldOk(k.sniffer)
  {
  }

  /** A forward capture that ended sixteen ticks ago is counted with its edge. */
  lemma CaptureTiming(c: Core)
    requires TimingInv(c) && c.sniffer.held.None? && c.phy.idleCount == RX_IDLE_LINE_HIGH_TICKS
    requires EdgeAt(c.clock.wire, c.clock.now - RX_IDLE_LINE_HIGH_TICKS)
    ensures TimingInv(NoteForwardCapture(c))
  {
    hide NoteOk, SendingAt, AnswerFrame, EdgeAt, RunOnWire;
    NotesKept(c.tally.arms, c.clock, NoteForwardCapture(c).clock);
  }

  /** Routing a capture holds it with the counts of now, or leaves none held. */
  lemma RoutedTiming(c: Core, r: Core)
    requires TimingInv(c) && r.phy == c.phy && r.clock == c.clock && r.staged == c.staged && r.tally == c.tally
    requires r.session.isAnswer == c.session.isAnswer
    requires r.sniffer.held.Some? ==>
               0 < r.clock.captured == r.sniffer.held.value.captured && r.sniffer.held.value.edge == r.clock.edge
    ensures TimingInv(r)
  {
    hide NoteOk, SendingAt, AnswerFrame, EdgeAt, RunOnWire;
  }

  lemma RouteChanges(c: Core, ev: RxEvent)
    requires c.sniffer.held.None?
    ensures var r := RouteForward(c, ev);
            && r.phy == c.phy && r.clock == c.clock && r.staged == c.staged && r.tally == c.tally
            && r.session.isAnswer == c.session.isAnswer
            && (r.sniffer.held.Some? ==>
                  r.sniffer.held.value.captured == c.clock.captured && r.sniffer.held.value.edge == c.clock.edge)
    ensures LengthClass(ev.capture.sampleCount).Backward? ==>
              var r := RouteBackward(c, ev);
              && r.phy == c.phy && r.clock == c.clock && r.staged == c.staged && r.tally == c.tally
              && r.session.isAnswer == c.session.isAnswer && r.sniffer.held.None?
  {
    hide Tags, PushEvent;
  }

  lemma DrainTiming(h: Core)
    requires TimingInv(h)
    requires h.phy.rx.state.Completed? ==>
               && !h.phy.busy && !h.session.isAnswer && h.sniffer.held.None?
               && h.phy.idleCount == RX_IDLE_LINE_HIGH_TICKS && EdgeAt(h.clock.wire, h.clock.now - RX_IDLE_LINE_HIGH_TICKS)
    ensures TimingInv(DrainCompletedRx(h))
  {
    hide NoteOk, SendingAt, AnswerFrame, EdgeAt, RunOnWire, RouteForward, RouteBackward;
    if h.phy.rx.state.Completed? {
      var c := h.(phy := TakeCompleted(h.phy).0);
      LineStays(h.phy, h.clock, c.phy, c.clock);
      var ev := RxEvent(h.phy.rx.last, c.clock.busEpoch, c.clock.now, 0, NotDecoded);
      if LengthClass(h.phy.rx.last.sampleCount).Forward? {
        CaptureTiming(c);
        var n := NoteForwardCapture(c);
        var fev := ev.(epoch := n.clock.busEpoch);
        RouteChanges(n, fev);
        RoutedTiming(n, RouteForward(n, fev));
      } else {
        RouteChanges(c, ev);
        RoutedTiming(c, RouteBackward(c, ev));
      }
    }
  }

  lemma TickTiming(c: Core, high: bool, answer: Option<u8>)
    requires Rest(c) && SniffInv(c) && AnswerInv(c) && TimingInv(c)
    ensures Ready(c) && TimingInv(IsrTick(c, high, answer))
  {
    hide ArmPending, Sample, Conclude, StepHeld, DrainCompletedRx, Tick, Rest, InSequence, Underway, TimingInv;
    var a, s, k, h := Stages(c, high, answer);
    ArmPendingTiming(c);
    ConcludeTiming(a, s, high);
    StepHeldTiming(k, answer);
    HeardWhileFree(c, high, answer, a, s, k, h);
    DrainTiming(h);
  }

  /** A capture completes only with nothing sent, nothing held, and no answer of a later query. */
  lemma HeardWhileFree(c: Core, high: bool, answer: Option<u8>, a: Core, s: Core, k: Core, h: Core)
    requires Rest(c) && SniffInv(c) && AnswerInv(c) && Ready(c) && a == ArmPending(c) && Rest(a)
    requires WellFormed(a.phy) && s == Sample(a, high, c.phy.rx.state) && Sampled(a, s) && s.phy == Tick(a.phy, high)
    requires k == Conclude(s, a.phy.busy) && Base(k) && SameLine(k.phy, s.phy)
    requires s.phy.rx.state.Completed? ==> !a.phy.busy && !s.phy.busy
    requires h == StepHeld(k, answer) && Base(h) && h.phy == k.phy
    ensures h.phy.rx.state.Completed? ==> !h.phy.busy && !h.session.isAnswer && h.sniffer.held.None?
  {
    hide ArmPending, Sample, Conclude, StepHeld, Tick, Rest, InSequence, Underway, EpochInv, TallyInv, AnswerInv;
    ArmPendingAnswers(c);
    SampleAnswers(a, s, high);
    KeptSniffer(s, a.phy.busy);
    ArmKeepsSniffer(c);
    Widen(k, a.phy.busy);
    StepHeldAnswers(k, answer);
    if c.sniffer.held.Some? {
      NothingCompletesWhileHeld(c, a, s, high);
    }
    if h.session.isAnswer {
      AnswerIsBusy(h);
    }
  }

  lemma AnswerIsBusy(h: Core)
    requires Base(h) && h.session.isAnswer
    ensures h.phy.busy
  {
  }

  // ---- Runs ----

  lemma StepTiming(c: Core, a: Action)
    requires Rest(c) && SniffInv(c) && AnswerInv(c) && TimingInv(c)
    ensures Ready(c) && TimingInv(Step(c, a))
  {
    hide IsrTick, PopSessionEventFor, LineInv, NoteOk, AnswerFrame, SendingAt, AnswerInv, SniffInv;
    RestIsReady(c);
    match a
    case TickWith(high, answer) =>
      TickTiming(c, high, answer);
    case PopEvent(e) =>
      PopKeeps(c, e);
    case _ =>
  }

  lemma {:induction false} RunTiming(c: Core, run: seq<Action>)
    requires Rest(c) && SniffInv(c) && AnswerInv(c) && TimingInv(c)
    ensures TimingInv(Exec(c, run)) && AnswerInv(Exec(c, run))
    decreases |run|
  {
    hide Step, SniffInv, Rest, AnswerInv, TimingInv;
    if run != [] {
      StepRests(c, run[0]);
      StepSniffs(c, run[0]);
      StepAnswers(c, run[0]);
      StepTiming(c, run[0]);
      RunTiming(Step(c, run[0]), run[1..]);
    }
  }

  lemma NewTiming()
    ensures Rest(NewCore()) && SniffInv(NewCore()) && AnswerInv(NewCore()) && TimingInv(NewCore())
  {
    hide NewPhy, Rest, RunsAgree, EdgeAt, SendingAt, NoteOk, WellTimed;
    NewCoreRests();
    NewLine();
  }

  lemma NewLine()
    ensures var p := NewPhy(); RunOnWire(p, []) && RunsAgree(p) && p.state.Idle? && !p.busy
  {
  }

  // ---- The slot ----

  /** The tick whose end puts the answer's first half-bit on the line. */
  function FirstDrive(n: ArmNote): int {
    n.tick + TX_ARM_LEAD_TICKS
  }

  /** The ticks from the last dominant sample of the query to that one. */
  function Gap(n: ArmNote): int {
    FirstDrive(n) - (n.edge - 1)
  }

  /**
   The last dominant sample of the query, the capture counted as the `queryCaptured`th, was `Gap`
   ticks before the first half-bit, which is dominant and the first level the answer drives; the
   rest of its frame follows, four ticks a half-bit.
   */
  ghost predicate OnTime(k: Clock, n: ArmNote) {
    var wire := k.wire;
    && QueryEdge(k, n.queryCaptured, n.edge) && EdgeAt(wire, n.edge) && 63 <= Gap(n) <= 101
    && (forall i | n.tick <= i < FirstDrive(n) && i < |wire| :: wire[i].out)
    && (FirstDrive(n) < |wire| ==> !wire[FirstDrive(n)].out)
    && exists v: u8 :: Carried(wire, n, v)
  }

  /** The answer's frame is the one of value `v`, and the wire carries it as far as it goes. */
  predicate Carried(wire: seq<Instant>, n: ArmNote, v: u8) {
    var h := FrameHalfBits(v, BACKWARD_DATA_BITS);
    && n.frame == EncodedFrame(v, BACKWARD_DATA_BITS)
    && forall t | 0 <= t <= ANSWER_TICKS - 4 && 0 <= FirstDrive(n) + t < |wire| :: wire[FirstDrive(n) + t].out == !h[t / 4]
  }

  lemma NoteIsOnTime(k: Clock, n: ArmNote)
    requires NoteOk(k, n) && WellTimed(n)
    ensures OnTime(k, n)
  {
    var wire := k.wire;
    hide EdgeAt, EncodedFrame, FrameHalfBits, Dominant;
    var v: u8 :| n.frame == EncodedFrame(v, BACKWARD_DATA_BITS);
    var h := FrameHalfBits(v, BACKWARD_DATA_BITS);
    StagedFrameIsEncoded(v, BACKWARD_DATA_BITS);
    StartsLow(v);
    forall t | 0 <= t <= ANSWER_TICKS - 4 && FirstDrive(n) + t < |wire|
      ensures wire[FirstDrive(n) + t].out == !h[t / 4]
    {
      assert wire[n.tick + (t + 4) - 1].out == OutAt(n.frame, t + 4);
    }
    assert Carried(wire, n, v);
    if FirstDrive(n) < |wire| {
      assert wire[FirstDrive(n) + 0].out == !h[0 / 4];
    }
    forall i | n.tick <= i < FirstDrive(n) && i < |wire| ensures wire[i].out {
      assert wire[n.tick + (i - n.tick + 1) - 1].out == OutAt(n.frame, i - n.tick + 1);
    }
  }

  lemma StartsLow(value: u32)
    ensures |FrameHalfBits(value, BACKWARD_DATA_BITS)| == BACKWARD_FRAME_HALF_BITS && FrameHalfBits(value, BACKWARD_DATA_BITS)[0]
  {
  }

  /** In every run every answer armed starts 63 to 101 ticks after the last dominant sample of its query. */
  lemma AnswersAreOnTime(run: seq<Action>)
    ensures Rest(NewCore())
    ensures var c := Exec(NewCore(), run);
            forall i | 0 <= i < |c.tally.arms| :: OnTime(c.clock, c.tally.arms[i])
  {
    hide Exec, OnTime, NoteOk, WellTimed, NewCore;
    NewTiming();
    RunTiming(NewCore(), run);
    var c := Exec(NewCore(), run);
    forall i | 0 <= i < |c.tally.arms| ensures OnTime(c.clock, c.tally.arms[i]) {
      NoteIsOnTime(c.clock, c.tally.arms[i]);
    }
  }

  /**
   From the first sample that saw the query's edge the answer is always inside the bounds of Table 20
   of IEC 62386-101; from the last dominant one it is, too, unless it was armed in the last tick.
   */
  lemma SlotIsInsideTheBounds(n: ArmNote)
    requires WellTimed(n) && n.since == n.tick - n.edge
    ensures BACKWARD_MIN_US <= (Gap(n) - 1) * PHY_TICK_US <= BACKWARD_MAX_US
    ensures BACKWARD_MIN_US <= Gap(n) * PHY_TICK_US
    ensures Gap(n) * PHY_TICK_US > BACKWARD_MAX_US <==> n.since == ANSWER_ARM_MAX_IDLE_TICKS
  {
  }
}
