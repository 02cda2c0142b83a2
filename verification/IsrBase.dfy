/** Runs of the interrupt core, and what every step of every run keeps (isr.rs). */
module IsrBase {
  import opened Wrappers
  import opened Fsm
  import opened PhaseSearch
  import opened RxDecode
  import opened PhySteps
  import opened Isr

  // ---- Runs ----

  datatype Action =
    | TickWith(high: bool, answer: Option<u8>)
    | Submit(request: Request)
    | Queue(request: Request)
    | Cancel(exchange: nat)
    | Begin
    | CloseWindow
    | PopEvent(exchange: nat)
    | PopCapture
    | TakeAborted

  function Step(c: Core, a: Action): Core
    requires Ready(c)
  {
    match a
    case TickWith(high, answer) => IsrTick(c, high, answer)
    case Submit(r) => SubmitTx(c, r).0
    case Queue(r) => QueueTx(c, r).0
    case Cancel(e) => CancelExchange(c, e)
    case Begin => BeginExchange(c).0
    case CloseWindow => CloseBackwardWindow(c).0
    case PopEvent(e) => PopSessionEventFor(c, e).0
    case PopCapture => PopRx(c).0
    case TakeAborted => TakeBatchAborted(c).0
  }

  // ---- The base invariant ----

  predicate AllSendable(d: Demand) {
    && (d.cell.Some? ==> Sendable(d.cell.value.frame))
    && (d.pending.Some? ==> Sendable(d.pending.value.frame))
    && forall i | 0 <= i < |d.queue| :: Sendable(d.queue[i].frame)
  }

  predicate ForwardOnWire(c: Core) {
    c.phy.busy && !c.session.isAnswer
  }

  /** The request taken up is the frame on the wire. */
  predicate Linked(c: Core) {
    ForwardOnWire(c) && c.demand.pending.Some? ==>
      var r := c.demand.pending.value;
      r.frame == c.phy.tx.frame && r.exchange == c.session.activeEpoch && (c.session.expects ==> r.expects)
  }

  predicate AnswerOk(s: Option<Staged>) {
    s.Some? ==> Sendable(s.value.frame) && s.value.frame.length == BACKWARD_FRAME_HALF_BITS
  }

  /** Answers are never broken off, and no window is open under a forward frame. */
  predicate Base(c: Core) {
    && Sound(c.phy) && (!c.phy.busy ==> Clear(c.phy))
    && AnswerOk(c.staged) && HeldOk(c.sniffer) && AllSendable(c.demand)
    && (c.session.isAnswer ==> c.phy.state.Tx? && c.phy.tx.answer && c.phy.tx.frame.length == BACKWARD_FRAME_HALF_BITS)
    && (ForwardOnWire(c) ==> !c.phy.tx.answer && c.session.window == 0)
    && (c.control.active ==> ForwardOnWire(c))
    && Linked(c)
  }

  predicate Rest(c: Core) {
    Base(c) && !c.phy.rx.state.Completed?
  }

  lemma RestIsReady(c: Core)
    requires Rest(c)
    ensures Ready(c)
  {
  }

  // ---- Arming ----

  lemma CancelBase(c: Core)
    requires Rest(c)
    ensures Rest(ApplyRequestedCancel(c))
  {
    hide Sound, Sendable, HeldOk;
  }

  lemma TryArmBase(c: Core)
    requires Rest(c) && !c.phy.busy
    ensures var (a, tried) := TryArm(c);
            && Rest(a)
            && (!tried.Armed? ==> a == c.(staged := a.staged, tally := a.tally))
            && (tried.NotStaged? ==> a.staged.None?)
  {
    hide HeldOk, AllSendable, ReceptionBeganInTheBackwardWindow;
  }

  lemma TakeUpSendable(d: Demand)
    requires AllSendable(d)
    ensures AllSendable(TakeUp(d))
  {
    hide Sendable;
  }

  /** A request that passed the checks at the door is never rejected at the line. */
  lemma ArmForwardBase(c: Core)
    requires Rest(c) && c.phy.state.Idle? && c.session.window == 0
    ensures Rest(ArmForward(c))
    ensures var d := TakeUp(c.demand);
            ArmForward(c) ==
              if d.pending.None? || c.phy.idleCount < d.pending.value.minIdle then c.(demand := d)
              else
                var r := d.pending.value;
                c.(phy := LoadTx(c.phy, r.frame, false), demand := d,
                   session := c.session.(activeEpoch := r.exchange, expects := r.expects),
                   ledger := Arming(c.ledger, r),
                   clock := c.clock.(busEpoch := (c.clock.busEpoch + 1) % 0x100, sent := c.clock.sent + 1))
  {
    hide HeldOk;
    TakeUpSendable(c.demand);
  }

  lemma ArmPendingBase(c: Core)
    requires Rest(c)
    ensures Rest(ArmPending(c))
  {
    hide Rest, ApplyRequestedCancel, TryArm, ArmForward;
    ArmReady(c);
    CancelBase(c);
    var k := ApplyRequestedCancel(c);
    ArmReady(k);
    if !k.phy.busy {
      TryArmBase(k);
      var (a, tried) := TryArm(k);
      if tried.NotStaged? && a.session.window == 0 && a.phy.state.Idle? && !LineDebouncing(a.phy) {
        ArmReady(a);
        ArmForwardBase(a);
      }
    }
  }

  lemma ArmReady(c: Core)
    requires Rest(c)
    ensures Armable(c)
  {
  }

  // ---- The transceiver's tick ----

  /** What a tick of the transceiver leaves as it was. */
  predicate Sampled(a: Core, s: Core) {
    && s.demand == a.demand && s.control == a.control && s.staged == a.staged && s.sniffer == a.sniffer
    && s.outbox == a.outbox && s.tally == a.tally && s.windows == a.windows
    && s.session == a.session.(rxStarted := s.session.rxStarted)
    && s.clock == a.clock.(now := a.clock.now + 1, rxStart := s.clock.rxStart, wire := s.clock.wire)
    && s.ledger == a.ledger.(driven := s.ledger.driven)
  }

  lemma SampleFrame(a: Core, high: bool, before: RxState)
    requires WellFormed(a.phy)
    ensures var s := Sample(a, high, before);
            Sampled(a, s) && s.phy == Tick(a.phy, high) && s.clock.wire == a.clock.wire + [Instant(high, s.phy.out)]
  {
    hide Tick;
  }

  // ---- The end of a transmission ----

  predicate SameLine(p: Phy, q: Phy) {
    p == q.(tx := p.tx)
  }

  lemma ConcludeBase(a: Core, s: Core, high: bool)
    requires Rest(a) && Sampled(a, s) && s.phy == Tick(a.phy, high)
    ensures Base(Conclude(s, a.phy.busy))
    ensures SameLine(Conclude(s, a.phy.busy).phy, s.phy)
    ensures s.phy.rx.state.Completed? ==> !a.phy.busy && !s.phy.busy && |s.phy.rx.last.samples| == SAMPLE_BUF_LEN
  {
    hide Tick, Sendable, HeldOk, Tags;
    if a.phy.busy {
      SendingTick(a.phy, high);
      if !s.phy.busy {
        CompletionBase(a, s);
      }
    } else {
      ListeningTick(a.phy, high);
    }
  }

  /** What is known when a transmission ends. */
  predicate Ended(a: Core, s: Core) {
    && a.phy.busy && !s.phy.busy && Sampled(a, s) && Sound(s.phy)
    && s.phy.rx == a.phy.rx && s.phy.tx.frame == a.phy.tx.frame && s.phy.tx.answer == a.phy.tx.answer
    && (GivenUp(a.phy, s.phy) || SentOut(a.phy, s.phy) || Broken(a.phy, s.phy))
  }

  /** The answer or the frame that was on the wire, how it ended, and the transceiver after the poll. */
  lemma PollEnds(a: Core, s: Core)
    requires Rest(a) && Ended(a, s)
    ensures var (p, poll) := PollTx(s.phy);
            && Sound(p) && Clear(p) && SameLine(p, s.phy)
            && (poll.Yielded? <==> GivenUp(a.phy, s.phy)) && (poll.Collision? <==> Broken(a.phy, s.phy))
            && (poll.Sent? <==> SentOut(a.phy, s.phy)) && !poll.Transmitting?
            && (a.session.isAnswer ==> poll.Sent?)
  {
    hide Sendable, HeldOk, AllSendable;
  }

  /** Nothing is on the wire and nothing is left to poll. */
  predicate Polled(k: Core) {
    && !k.phy.busy && Sound(k.phy) && Clear(k.phy) && !k.phy.rx.state.Completed?
    && AnswerOk(k.staged) && HeldOk(k.sniffer) && AllSendable(k.demand)
  }

  lemma PolledRests(k: Core)
    requires Polled(k) && !k.session.isAnswer && !k.control.active
    ensures Rest(k)
  {
  }

  lemma ForwardDone(k: Core, poll: TxPoll)
    requires Polled(k) && !k.session.isAnswer && !poll.Transmitting?
    ensures var r := ReportForward(k, poll); Polled(r) && !r.session.isAnswer && !r.control.active && SameLine(r.phy, k.phy)
  {
    hide Sendable, HeldOk, Tags, AnswerOk;
  }

  lemma CompletionBase(a: Core, s: Core)
    requires Rest(a) && Ended(a, s)
    ensures Rest(ReportCompletion(s)) && SameLine(ReportCompletion(s).phy, s.phy)
  {
    hide PollTx, ReportForward, Polled, Rest;
    PollEnds(a, s);
    PollIsPolled(a, s);
    var (p, poll) := PollTx(s.phy);
    var k := s.(phy := p);
    if s.session.isAnswer {
      AnswerDone(k, poll);
      AnswerIsNotCancelled(a);
    } else {
      ForwardDone(k, poll);
    }
    PolledRests(ReportCompletion(s));
  }

  lemma PollIsPolled(a: Core, s: Core)
    requires Rest(a) && Ended(a, s)
    ensures Polled(s.(phy := PollTx(s.phy).0))
  {
    hide PollTx, Sound, Sendable, HeldOk;
    PollEnds(a, s);
  }

  lemma AnswerDone(k: Core, poll: TxPoll)
    requires Polled(k)
    ensures Polled(ReportAnswer(k.(session := k.session.(isAnswer := false)), poll))
  {
  }

  lemma AnswerIsNotCancelled(a: Core)
    requires Rest(a)
    ensures a.session.isAnswer ==> !a.control.active
  {
  }

  // ---- Captures ----

  lemma StepHeldBase(c: Core, answer: Option<u8>)
    requires Base(c)
    ensures Base(StepHeld(c, answer)) && StepHeld(c, answer).phy == c.phy
  {
    hide Sound, SearchStep, EventWindow, AllSendable;
    AnswerFrameOk(answer);
  }

  lemma AnswerFrameOk(answer: Option<u8>)
    ensures answer.Some? ==>
              var f := EncodedFrame(answer.value, BACKWARD_DATA_BITS);
              Sendable(f) && f.length == BACKWARD_FRAME_HALF_BITS
  {
  }

  lemma AbortBase(c: Core)
    requires Base(c)
    ensures Base(AbortBatchTail(c))
  {
    hide Sound, Sendable, Tags, HeldOk;
  }

  lemma SniffBase(c: Core, ev: RxEvent)
    requires Base(c) && |ev.capture.samples| == SAMPLE_BUF_LEN
    ensures Base(PushSniffer(c, ev))
  {
    hide Sound, AllSendable;
  }

  lemma CloseWindowBase(c: Core, event: SessionEvent)
    requires Base(c)
    ensures Base(CloseWindowWith(c, event))
  {
    hide Sound, AllSendable, HeldOk;
  }

  lemma DrainBase(c: Core)
    requires Base(c) && (c.phy.rx.state.Completed? ==> !c.phy.busy && |c.phy.rx.last.samples| == SAMPLE_BUF_LEN)
    ensures Rest(DrainCompletedRx(c))
  {
    hide AbortBatchTail, PushSniffer, CloseWindowWith, Base;
    var (p, taken) := TakeCompleted(c.phy);
    if taken.Some? {
      TakenBase(c);
      var k := c.(phy := p);
      var ev := RxEvent(taken.value, k.clock.busEpoch, k.clock.now, 0, NotDecoded);
      var back := RxComplete(ev);
      CloseWindowBase(k, back);
      SniffBase(CloseWindowWith(k, back), ev);
      var n := NoteForwardCapture(k);
      var fev := RxEvent(taken.value, n.clock.busEpoch, n.clock.now, 0, NotDecoded);
      AbortBase(n);
      var fwd := ForeignForward(fev.capture.preIdle, fev.capture.sampleCount);
      CloseWindowBase(AbortBatchTail(n), fwd);
      SniffBase(CloseWindowWith(AbortBatchTail(n), fwd), fev);
      DrainPhy(c);
    }
  }

  lemma TakenBase(c: Core)
    requires Base(c) && c.phy.rx.state.Completed? && !c.phy.busy
    ensures var k := c.(phy := TakeCompleted(c.phy).0); Base(k) && Base(NoteForwardCapture(k))
  {
  }

  lemma DrainPhy(c: Core)
    ensures DrainCompletedRx(c).phy == TakeCompleted(c.phy).0
  {
    hide Tags;
  }

  // ---- The whole tick ----

  /** The states between the parts of a tick, and what is known of each. */
  lemma Stages(c: Core, high: bool, answer: Option<u8>) returns (a: Core, s: Core, k: Core, h: Core)
    requires Rest(c)
    ensures Ready(c) && WellFormed(a.phy) && HeldOk(k.sniffer)
    ensures a == ArmPending(c) && Rest(a)
    ensures s == Sample(a, high, c.phy.rx.state) && Sampled(a, s) && s.phy == Tick(a.phy, high)
    ensures s.clock.wire == a.clock.wire + [Instant(high, s.phy.out)]
    ensures k == Conclude(s, a.phy.busy) && Base(k) && SameLine(k.phy, s.phy)
    ensures s.phy.rx.state.Completed? ==> !a.phy.busy && !s.phy.busy && |s.phy.rx.last.samples| == SAMPLE_BUF_LEN
    ensures h == StepHeld(k, answer) && Base(h) && h.phy == k.phy
    ensures IsrTick(c, high, answer) == DrainCompletedRx(h) && Rest(IsrTick(c, high, answer))
  {
    hide ArmPending, Sample, Conclude, StepHeld, DrainCompletedRx, Tick;
    RestIsReady(c);
    ArmPendingBase(c);
    a := ArmPending(c);
    SampleFrame(a, high, c.phy.rx.state);
    s := Sample(a, high, c.phy.rx.state);
    ConcludeBase(a, s, high);
    k := Conclude(s, a.phy.busy);
    StepHeldBase(k, answer);
    h := StepHeld(k, answer);
    DrainBase(h);
  }

  // ---- Runs ----

  lemma {:induction false} PopKeeps(c: Core, exchange: nat)
    ensures var k := PopSessionEventFor(c, exchange).0; k == c.(outbox := k.outbox)
    decreases |c.outbox.ring|
  {
    if c.outbox.ring != [] {
      var k := c.(outbox := c.outbox.(ring := c.outbox.ring[1..], taken := c.outbox.taken + 1));
      PopKeeps(k, exchange);
    }
  }

  lemma StepRests(c: Core, a: Action)
    requires Rest(c)
    ensures Ready(c) && Rest(Step(c, a))
  {
    hide IsrTick, PopSessionEventFor;
    RestIsReady(c);
    match a
    case TickWith(high, answer) =>
      var _, _, _, _ := Stages(c, high, answer);
    case PopEvent(e) =>
      PopKeeps(c, e);
    case _ =>
  }

  /** A run of ticks and calls in any order. */
  function Exec(c: Core, run: seq<Action>): (r: Core)
    requires Rest(c)
    ensures Rest(r)
    decreases |run|
  {
    if run == [] then c
    else
      StepRests(c, run[0]);
      Exec(Step(c, run[0]), run[1..])
  }

  lemma NewCoreRests()
    ensures Rest(NewCore())
  {
  }
}
