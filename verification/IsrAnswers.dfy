/**
 Answers staged by the interrupt: armed only for the latest traffic, inside their slot, and then
 sent in full (isr.rs, backward_window.rs, fsm.rs).
 */
module IsrAnswers {
  import opened Wrappers
  import opened Bits
  import opened HalfBits
  import opened Fsm
  import opened PhaseSearch
  import opened RxDecode
  import opened PhySteps
  import opened Isr
  import opened IsrBase
  import opened IsrSniffer
  import opened RoundTrip

  function Total(k: Clock): int {
    k.captured + k.sent
  }

  /** The traffic since some query: never negative in either kind, and at most `bound` frames. */
  predicate Since(c: Core, captured: nat, sent: int, bound: nat) {
    && c.clock.captured >= captured
    && c.clock.sent >= sent + (if ForwardOnWire(c) then 1 else 0)
    && Total(c.clock) <= captured + sent + bound
  }

  predicate StagedSince(c: Core, bound: nat) {
    c.staged.Some? ==>
      var s := c.staged.value;
      Since(c, s.captured, s.sent, bound) && s.epoch == (s.captured + s.sent) % 0x100
  }

  predicate HeldSince(c: Core, extra: nat) {
    c.sniffer.held.Some? ==>
      var h := c.sniffer.held.value;
      Since(c, h.captured, h.sent, h.search.step + extra) && h.ev.epoch == (h.captured + h.sent) % 0x100
  }

  /** An answer went out in its slot, with nothing captured and nothing sent since its query. */
  predicate WellTimed(n: ArmNote) {
    && ANSWER_ARM_TARGET_IDLE_TICKS <= n.since <= ANSWER_ARM_MAX_IDLE_TICKS
    && n.captured == n.queryCaptured && n.sent == n.querySent
  }

  predicate TallyInv(c: Core) {
    && c.tally.rejected == 0 && c.tally.collided == 0
    && |c.tally.arms| == c.tally.sent + (if c.session.isAnswer then 1 else 0)
    && forall i | 0 <= i < |c.tally.arms| :: WellTimed(c.tally.arms[i])
  }

  predicate EpochInv(k: Clock) {
    k.busEpoch == Total(k) % 0x100
  }

  predicate AnswerInv(c: Core) {
    EpochInv(c.clock) && TallyInv(c) && StagedSince(c, 5) && HeldSince(c, 0)
  }

  /** After arming: a held capture may have one more frame behind it, an answer still staged has none. */
  predicate ArmedInv(a: Core) {
    EpochInv(a.clock) && TallyInv(a) && StagedSince(a, if a.phy.busy then 5 else 0) && HeldSince(a, 1)
  }

  // ---- Arming ----

  lemma CancelAnswers(c: Core)
    requires AnswerInv(c)
    ensures AnswerInv(ApplyRequestedCancel(c))
  {
    hide Tags, EpochInv;
  }

  /** Eight bits are enough: the epochs agree only when nothing went by. */
  lemma EpochsAgree(c: Core)
    requires EpochInv(c.clock) && StagedSince(c, 5) && c.staged.Some? && !c.phy.busy
    requires c.staged.value.epoch == c.clock.busEpoch
    ensures c.clock.captured == c.staged.value.captured && c.clock.sent == c.staged.value.sent
  {
  }

  lemma TryArmAnswers(c: Core)
    requires Rest(c) && !c.phy.busy && AnswerInv(c)
    ensures var (a, tried) := TryArm(c); ArmedInv(a) && HeldSince(a, 0)
  {
    hide Sound, HeldOk, AllSendable, EpochInv, ReceptionBeganInTheBackwardWindow;
    if c.staged.Some? && c.staged.value.epoch == c.clock.busEpoch {
      EpochsAgree(c);
      LineUnderStarts(c);
    }
  }

  /** A line that is not busy lets an answer start. */
  lemma LineUnderStarts(c: Core)
    requires Rest(c) && c.staged.Some?
    ensures !LineUnder(c).LineBusy? ==> CanStartAnswer(c.phy, c.staged.value.frame)
  {
    hide HeldOk, AllSendable;
  }

  lemma ArmForwardAnswers(c: Core)
    requires Rest(c) && c.phy.state.Idle? && c.session.window == 0
    requires ArmedInv(c) && HeldSince(c, 0) && c.staged.None?
    ensures ArmedInv(ArmForward(c))
  {
    hide Sound, HeldOk, AllSendable, ArmForward, LoadTx;
    ArmForwardBase(c);
    LoadIsBusy(c);
  }

  lemma LoadIsBusy(c: Core)
    requires Rest(c)
    ensures forall f: Frame :: |f.data| == DATA_LEN ==> LoadTx(c.phy, f, false).busy
  {
  }

  lemma ArmPendingAnswers(c: Core)
    requires Rest(c) && AnswerInv(c)
    ensures Armable(c) && ArmedInv(ArmPending(c))
  {
    hide Rest, ApplyRequestedCancel, TryArm, ArmForward, AnswerInv, ArmedInv, HeldSince;
    ArmReady(c);
    CancelBase(c);
    CancelAnswers(c);
    var k := ApplyRequestedCancel(c);
    ArmReady(k);
    if k.phy.busy {
      BusyArmed(k);
    } else {
      TryArmBase(k);
      TryArmAnswers(k);
      var (a, tried) := TryArm(k);
      if tried.NotStaged? && a.session.window == 0 && a.phy.state.Idle? && !LineDebouncing(a.phy) {
        ArmReady(a);
        ArmForwardAnswers(a);
      }
    }
  }

  lemma BusyArmed(k: Core)
    requires AnswerInv(k) && k.phy.busy
    ensures ArmedInv(k)
  {
  }

  // ---- The rest of the tick ----

  lemma SampleAnswers(a: Core, s: Core, high: bool)
    requires Rest(a) && ArmedInv(a) && Sampled(a, s) && s.phy == Tick(a.phy, high)
    ensures var k := Conclude(s, a.phy.busy);
            EpochInv(k.clock) && TallyInv(k) && StagedSince(k, if a.phy.busy then 5 else 0) && HeldSince(k, 1)
  {
    hide Tick, Sound, HeldOk, AllSendable, Tags;
    if a.phy.busy {
      SendingTick(a.phy, high);
      if !s.phy.busy {
        EndAnswers(a, s);
      }
    } else {
      ListeningTick(a.phy, high);
    }
  }

  lemma EndAnswers(a: Core, s: Core)
    requires Rest(a) && ArmedInv(a) && Ended(a, s)
    ensures var k := ReportCompletion(s); EpochInv(k.clock) && TallyInv(k) && StagedSince(k, 5) && HeldSince(k, 1)
  {
    hide Tags, PollTx, Push;
    PollEnds(a, s);
    var (p, poll) := PollTx(s.phy);
    if !a.session.isAnswer {
      ForwardKeepsTraffic(s.(phy := p), poll);
    }
  }

  /** A forward frame that yielded is taken back from the count of those sent. */
  lemma ForwardKeepsTraffic(k: Core, poll: TxPoll)
    requires !k.phy.busy && !k.session.isAnswer && EpochInv(k.clock) && !poll.Transmitting?
    ensures var r := ReportForward(k, poll);
            && r.staged == k.staged && r.sniffer == k.sniffer && r.tally == k.tally
            && !r.session.isAnswer && r.phy.busy == k.phy.busy && EpochInv(r.clock)
            && r.clock == k.clock.(busEpoch := r.clock.busEpoch, sent := if poll.Yielded? then k.clock.sent - 1 else k.clock.sent)
  {
    hide Tags;
  }

  lemma StepHeldAnswers(k: Core, answer: Option<u8>)
    requires Base(k) && EpochInv(k.clock) && TallyInv(k) && HeldSince(k, 1)
    requires k.sniffer.held.Some? ==> Underway(k.sniffer.held.value)
    requires StagedSince(k, 5)
    ensures var h := StepHeld(k, answer);
            && EpochInv(h.clock) && TallyInv(h) && StagedSince(h, 5) && HeldSince(h, 0)
            && (k.sniffer.held.None? ==> h == k)
  {
    hide SearchStep, Found, Sound, AllSendable, EncodedFrame, NeededFor;
    if k.sniffer.held.Some? {
      var was := k.sniffer.held.value;
      PhaseStep(was);
      NeededIsFive(was.ev);
    }
  }

  lemma DrainAnswers(h: Core)
    requires Base(h) && EpochInv(h.clock) && TallyInv(h) && HeldSince(h, 0)
    requires h.phy.rx.state.Completed? ==> !h.phy.busy && h.sniffer.held.None? && StagedSince(h, 0)
    requires StagedSince(h, 5)
    ensures AnswerInv(DrainCompletedRx(h))
  {
    hide Tags, Sound, AllSendable, Push;
    if h.phy.rx.state.Completed? {
      var c := h.(phy := TakeCompleted(h.phy).0);
      var ev := RxEvent(h.phy.rx.last, c.clock.busEpoch, c.clock.now, 0, NotDecoded);
      if LengthClass(h.phy.rx.last.sampleCount).Forward? {
        ForwardAnswers(c);
      } else {
        SniffAnswers(CloseWindowWith(c, RxComplete(ev)), ev);
      }
    }
  }

  lemma ForwardAnswers(c: Core)
    requires !c.phy.busy && EpochInv(c.clock) && TallyInv(c) && c.sniffer.held.None? && StagedSince(c, 0)
    ensures var n := NoteForwardCapture(c);
            var ev := RxEvent(c.phy.rx.last, n.clock.busEpoch, n.clock.now, 0, NotDecoded);
            AnswerInv(RouteForward(n, ev))
  {
    hide Tags, Push;
    var n := NoteForwardCapture(c);
    var ev := RxEvent(c.phy.rx.last, n.clock.busEpoch, n.clock.now, 0, NotDecoded);
    var m := CloseWindowWith(AbortBatchTail(n), ForeignForward(ev.capture.preIdle, ev.capture.sampleCount));
    SniffAnswers(m, ev);
  }

  lemma SniffAnswers(m: Core, ev: RxEvent)
    requires !m.phy.busy && EpochInv(m.clock) && TallyInv(m) && m.sniffer.held.None? && StagedSince(m, 5)
    requires ev.epoch == m.clock.busEpoch
    ensures AnswerInv(PushSniffer(m, ev))
  {
  }

  lemma TickAnswers(c: Core, high: bool, answer: Option<u8>)
    requires Rest(c) && SniffInv(c) && AnswerInv(c)
    ensures Ready(c) && AnswerInv(IsrTick(c, high, answer))
  {
    hide ArmPending, Sample, Conclude, StepHeld, DrainCompletedRx, Tick, Rest, Base, InSequence, Underway;
    hide EpochInv, TallyInv, Since, AnswerInv;
    var a, s, k, h := Stages(c, high, answer);
    ArmPendingAnswers(c);
    SampleAnswers(a, s, high);
    KeptSniffer(s, a.phy.busy);
    ArmKeepsSniffer(c);
    Widen(k, a.phy.busy);
    StepHeldAnswers(k, answer);
    if c.sniffer.held.Some? {
      NothingCompletesWhileHeld(c, a, s, high);
    }
    DrainAnswers(h);
  }

  lemma Widen(k: Core, busy: bool)
    requires StagedSince(k, if busy then 5 else 0)
    ensures StagedSince(k, 5)
  {
  }

  // ---- Runs ----

  lemma StepAnswers(c: Core, a: Action)
    requires Rest(c) && SniffInv(c) && AnswerInv(c)
    ensures Ready(c) && AnswerInv(Step(c, a))
  {
    hide IsrTick, PopSessionEventFor, Sound, InSequence, Underway, EpochInv, WellTimed;
    RestIsReady(c);
    match a
    case TickWith(high, answer) =>
      TickAnswers(c, high, answer);
    case PopEvent(e) =>
      PopKeeps(c, e);
    case _ =>
  }

  lemma {:induction false} RunAnswers(c: Core, run: seq<Action>)
    requires Rest(c) && SniffInv(c) && AnswerInv(c)
    ensures AnswerInv(Exec(c, run))
    decreases |run|
  {
    hide Step, SniffInv, Rest, AnswerInv;
    if run != [] {
      StepRests(c, run[0]);
      StepSniffs(c, run[0]);
      StepAnswers(c, run[0]);
      RunAnswers(Step(c, run[0]), run[1..]);
    }
  }

  /** In every run, every answer armed was well timed, and every one that left the wire was sent. */
  lemma AnswersKeepTheirSlot(run: seq<Action>)
    ensures Rest(NewCore()) && TallyInv(Exec(NewCore(), run))
  {
    hide Exec;
    NewCoreRests();
    RunAnswers(NewCore(), run);
  }

  // ---- The slot ----

  /** Where the query's last edge was: sixteen samples before its capture completed. */
  lemma CaptureStampsEdge(c: Core, high: bool, answer: Option<u8>)
    requires Rest(c) && RunsAgree(c.phy)
    ensures Ready(c)
    ensures var r := IsrTick(c, high, answer);
            && RunsAgree(r.phy)
            && (if r.clock.captured == c.clock.captured then r.clock.edge == c.clock.edge
                else r.clock.edge == r.clock.now - RX_IDLE_LINE_HIGH_TICKS)
  {
    hide ArmPending, Sample, StepHeld, Tick, Rest, Base, DrainCompletedRx;
    var a, s, k, h := Stages(c, high, answer);
    ArmKeepsEdge(c);
    AtRestFacts(a);
    CompletesSixteenAfter(a.phy, high);
    ConcludeKeepsEdge(s, a.phy.busy);
    StepHeldKeepsEdge(k, answer);
    DrainKeepsEdge(h);
  }

  lemma AtRestFacts(a: Core)
    requires Rest(a)
    ensures Sound(a.phy) && !a.phy.rx.state.Completed?
  {
  }

  lemma ArmKeepsEdge(c: Core)
    requires Rest(c)
    ensures Armable(c)
    ensures var a := ArmPending(c);
            a.clock.edge == c.clock.edge && a.clock.captured == c.clock.captured && (RunsAgree(c.phy) ==> RunsAgree(a.phy))
  {
    hide Tags, Sound, GateAt, HeldOk, AllSendable;
    ArmReady(c);
    ArmedStillHears(c);
    var k := ApplyRequestedCancel(c);
    if !k.phy.busy {
      ArmIdleEdge(k);
    }
  }

  lemma ArmIdleEdge(k: Core)
    requires Armable(k)
    ensures var a := ArmIdle(k); a.clock.edge == k.clock.edge && a.clock.captured == k.clock.captured
  {
    hide GateAt, LineUnder, Push;
  }

  lemma ConcludeKeepsEdge(s: Core, wasBusy: bool)
    ensures var k := Conclude(s, wasBusy); k.clock.edge == s.clock.edge && k.clock.captured == s.clock.captured
  {
    hide Tags, Push;
  }

  lemma StepHeldKeepsEdge(k: Core, answer: Option<u8>)
    requires HeldOk(k.sniffer)
    ensures StepHeld(k, answer).clock == k.clock
  {
    hide SearchStep;
  }

  lemma DrainKeepsEdge(h: Core)
    requires h.phy.rx.state.Completed? ==> h.phy.idleCount == RX_IDLE_LINE_HIGH_TICKS
    ensures var r := DrainCompletedRx(h);
            && r.clock.now == h.clock.now && r.phy == TakeCompleted(h.phy).0
            && (if r.clock.captured == h.clock.captured then r.clock.edge == h.clock.edge
                else r.clock.edge == r.clock.now - RX_IDLE_LINE_HIGH_TICKS)
  {
    hide Tags, Push;
  }

  // ---- Sent in full ----

  /** With its own line policy an answer goes through its half-bits whatever the line does. */
  lemma AnswerStep(p: Phy, f: Frame, t: nat, high: bool)
    requires SendingAt(p, f, t) && p.tx.answer && p.policy.Auto? && f.length == BACKWARD_FRAME_HALF_BITS && t <= 4 * f.length
    ensures var q := Tick(p, high);
            SendingAt(q, f, t + 1) && q.tx.answer && q.policy.Auto? && (t == 4 * f.length ==> !q.busy)
  {
    hide Dominant, TickRx, TickIdle, TickCollisionTx;
    if 4 <= t < 4 * f.length {
      AnswerHalfBit(p, f, t, high);
    }
  }

  lemma AnswerHalfBit(p: Phy, f: Frame, t: nat, high: bool)
    requires SendingAt(p, f, t) && p.tx.answer && p.policy.Auto? && f.length == BACKWARD_FRAME_HALF_BITS
    requires 4 <= t < 4 * f.length
    ensures var q := Tick(p, high); SendingAt(q, f, t + 1) && q.tx.answer && q.policy.Auto?
  {
    hide Dominant, TickRx, TickIdle, TickCollisionTx, TickTxArmed, SetBusIdle, EnterCollisionTx;
    HalfBitCount(t);
  }

  /** The answer `t` ticks after it was armed. */
  predicate Answering(c: Core, f: Frame, t: nat) {
    c.session.isAnswer && SendingAt(c.phy, f, t) && f.length == BACKWARD_FRAME_HALF_BITS && t <= 4 * f.length
  }

  lemma BusyPhyTicks(c: Core, high: bool, answer: Option<u8>)
    requires Rest(c) && c.phy.busy
    ensures Ready(c)
    ensures var q, r := Tick(c.phy, high), IsrTick(c, high, answer);
            if q.busy then r.phy == q && r.session.isAnswer == c.session.isAnswer && r.tally == c.tally
            else SameLine(r.phy, q) && (c.session.isAnswer ==> r.tally == c.tally.(sent := c.tally.sent + 1) && !r.session.isAnswer)
  {
    hide Sample, Tick, StepHeld, DrainCompletedRx, Rest;
    var a, s, k, h := Stages(c, high, answer);
    BusyArms(c);
    BusyConcludes(a, s, high);
    StepHeldKeepsPhy(k, answer);
    NothingToDrain(h);
  }

  lemma BusyArms(c: Core)
    requires Rest(c) && c.phy.busy
    ensures Armable(c) && ArmPending(c) == ApplyRequestedCancel(c)
    ensures ArmPending(c).tally == c.tally && ArmPending(c).session.isAnswer == c.session.isAnswer
  {
    ArmReady(c);
  }

  lemma BusyConcludes(a: Core, s: Core, high: bool)
    requires Rest(a) && a.phy.busy && Sampled(a, s) && s.phy == Tick(a.phy, high)
    ensures var k := Conclude(s, true);
            && !s.phy.rx.state.Completed?
            && if s.phy.busy then k == s
               else SameLine(k.phy, s.phy)
                    && (a.session.isAnswer ==> k.tally == a.tally.(sent := a.tally.sent + 1) && !k.session.isAnswer)
  {
    hide Tick, Sound, HeldOk, AllSendable, PollTx, ReportForward;
    SendingTick(a.phy, high);
    if !s.phy.busy {
      PollEnds(a, s);
      CompletionBase(a, s);
    }
  }

  lemma StepHeldKeepsPhy(k: Core, answer: Option<u8>)
    requires HeldOk(k.sniffer)
    ensures var h := StepHeld(k, answer); h.phy == k.phy && h.session == k.session && h.tally == k.tally
  {
    hide SearchStep;
  }

  function TickCount(run: seq<Action>): nat {
    if run == [] then 0 else (if run[0].TickWith? then 1 else 0) + TickCount(run[1..])
  }

  lemma AnsweringStep(c: Core, f: Frame, t: nat, a: Action)
    requires Rest(c) && Answering(c, f, t) && (a.TickWith? ==> t < 4 * f.length)
    ensures Ready(c) && Answering(Step(c, a), f, if a.TickWith? then t + 1 else t)
  {
    hide IsrTick, PopSessionEventFor, SendingAt;
    RestIsReady(c);
    match a
    case TickWith(high, answer) =>
      AnswerTicks(c, f, t, high, answer);
    case PopEvent(e) =>
      PopKeeps(c, e);
    case _ =>
  }

  lemma AnswerTicks(c: Core, f: Frame, t: nat, high: bool, answer: Option<u8>)
    requires Rest(c) && Answering(c, f, t) && t < 4 * f.length
    ensures Ready(c) && Answering(IsrTick(c, high, answer), f, t + 1)
  {
    hide IsrTick, Tick;
    BusyPhyTicks(c, high, answer);
    AnswerStep(c.phy, f, t, high);
    AnswerStaysBusy(c.phy, f, t, high);
  }

  lemma AnswerStaysBusy(p: Phy, f: Frame, t: nat, high: bool)
    requires Sound(p) && SendingAt(p, f, t) && SendingAt(Tick(p, high), f, t + 1) && t < 4 * f.length && p.busy
    ensures Tick(p, high).busy
  {
    hide Tick;
    SendingTick(p, high);
  }

  /** Whatever happens meanwhile, calls or line, an armed answer drives one half-bit after the other. */
  lemma {:induction false} AnswerRuns(c: Core, f: Frame, t: nat, run: seq<Action>)
    requires Rest(c) && Answering(c, f, t) && t + TickCount(run) <= 4 * f.length
    ensures Answering(Exec(c, run), f, t + TickCount(run))
    decreases |run|
  {
    hide Step, Rest, Answering;
    if run != [] {
      StepRests(c, run[0]);
      AnsweringStep(c, f, t, run[0]);
      AnswerRuns(Step(c, run[0]), f, if run[0].TickWith? then t + 1 else t, run[1..]);
    }
  }

  /** And it ends as sent. */
  lemma AnswerEndsSent(c: Core, f: Frame, high: bool, answer: Option<u8>)
    requires Rest(c) && Answering(c, f, 4 * f.length)
    ensures Ready(c)
    ensures var r := IsrTick(c, high, answer);
            !r.phy.busy && !r.session.isAnswer && r.tally == c.tally.(sent := c.tally.sent + 1)
  {
    hide IsrTick, Tick;
    BusyPhyTicks(c, high, answer);
    AnswerStep(c.phy, f, 4 * f.length, high);
  }

  /** An answer starts this way. */
  lemma FiringStartsAnswer(c: Core, since: nat, late: bool, over: bool)
    requires Rest(c) && c.staged.Some? && !c.phy.busy && (c.phy.state.Idle? || c.phy.state.Rx?)
    ensures Answering(FireStagedAnswer(c, since, late, over), c.staged.value.frame, 0)
  {
    hide HeldOk, AllSendable, Dominant;
  }

  // ---- The answer's frame ----

  /** Eight half-bits of a frame, nothing after its end. */
  function EightOf(h: seq<bool>, j: nat): (s: seq<bool>)
    ensures |s| == 8 && forall i | 0 <= i < 8 :: s[i] == (8 * j + i < |h| && h[8 * j + i])
  {
    seq(8, i requires 0 <= i < 8 => 8 * j + i < |h| && h[8 * j + i])
  }

  /** The frame staged for an answer is the encoder's frame of its value. */
  lemma StagedFrameIsEncoded(value: u32, n: nat)
    requires n <= 33
    ensures Encodes(EncodedFrame(value, n), value, n)
  {
    hide Bit, Folded, FrameHalfBits;
    var h, f := FrameHalfBits(value, n), EncodedFrame(value, n);
    forall k | 0 <= k < 8 * DATA_LEN ensures Dominant(f.data, k) == (k < |h| && h[k]) {
      var j := k / 8;
      assert seq(8, i requires 0 <= i < 8 => 8 * j + i < |h| && h[8 * j + i]) == EightOf(h, j);
      FoldedBits(EightOf(h, j), k % 8);
    }
  }
}
