/** Ticks of the interrupt core with a frame on the wire, and with only a pending request on an idle line. */
module IsrBusy {
  import opened Wrappers
  import opened HalfBits
  import opened Fsm
  import opened PhaseSearch
  import opened PhySteps
  import opened Isr
  import opened IsrBase
  import opened IsrSniffer

  /** Everything but the transceiver, the clock, the sniffer, a staged answer and the books. */
  predicate SameAround(c: Core, r: Core) {
    && r.demand == c.demand && r.control == c.control && r.session == c.session && r.outbox == c.outbox
    && r.ledger.restarted == c.ledger.restarted && r.ledger.dropped == c.ledger.dropped
    && r.ledger.nextTag == c.ledger.nextTag && r.ledger.collided == c.ledger.collided
  }

  lemma UncancelledArm(c: Core)
    requires Rest(c) && c.phy.busy && c.control.requested == 0
    ensures Armable(c) && ArmPending(c) == c
  {
    ArmReady(c);
  }

  lemma SampleBusy(c: Core, high: bool)
    requires Rest(c) && c.phy.busy
    ensures var s := Sample(c, high, c.phy.rx.state);
            && s.phy.rx == c.phy.rx && s.session == c.session && s.ledger.restarted == c.ledger.restarted
            && s.ledger == c.ledger.(driven := s.ledger.driven)
  {
    hide Tick, HeldOk, AllSendable;
    SendingTick(c.phy, high);
  }

  lemma StepHeldQuiet(k: Core, answer: Option<u8>)
    requires HeldOk(k.sniffer)
    ensures var h := StepHeld(k, answer); h == k.(sniffer := h.sniffer, staged := h.staged)
    ensures answer.None? ==> StepHeld(k, answer).staged == k.staged
  {
    hide SearchStep, PushRing;
  }

  /** While the frame stays on the wire only the transceiver moves. */
  lemma BusyTick(c: Core, high: bool, answer: Option<u8>)
    requires Rest(c) && c.phy.busy && c.control.requested == 0 && Tick(c.phy, high).busy
    ensures Ready(c)
    ensures var r := IsrTick(c, high, answer);
            r.phy == Tick(c.phy, high) && SameAround(c, r) && Rest(r) && (answer.None? ==> r.staged == c.staged)
  {
    hide ArmPending, Sample, StepHeld, DrainCompletedRx, Tick, Rest, Base;
    var a, s, k, h := Stages(c, high, answer);
    UncancelledArm(c);
    SampleBusy(c, high);
    StepHeldQuiet(k, answer);
    NothingCompleted(c);
    NothingToDrain(h);
  }

  lemma NothingCompleted(c: Core)
    requires Rest(c)
    ensures !c.phy.rx.state.Completed?
  {
  }

  /** The tick in which a forward frame leaves the wire. */
  lemma EndingTick(c: Core, high: bool, answer: Option<u8>) returns (k: Core, poll: TxPoll)
    requires Rest(c) && ForwardOnWire(c) && c.control.requested == 0 && !Tick(c.phy, high).busy
    ensures Ready(c)
    ensures var q, r := Tick(c.phy, high), IsrTick(c, high, answer);
            && (k.phy, poll) == PollTx(q)
            && k.demand == c.demand && k.control == c.control && k.session == c.session && k.outbox == c.outbox
            && k.staged == c.staged && k.ledger == c.ledger.(driven := k.ledger.driven)
            && r == ReportForward(k, poll).(sniffer := r.sniffer, staged := r.staged) && Rest(r)
            && (answer.None? ==> r.staged == ReportForward(k, poll).staged)
            && (poll.Collision? <==> c.phy.state.CollisionTx?) && !poll.Transmitting?
  {
    hide ArmPending, Sample, StepHeld, DrainCompletedRx, Tick, ReportForward, PollTx;
    var a, s, m, h := Stages(c, high, answer);
    UncancelledArm(c);
    SampleBusy(c, high);
    StepHeldQuiet(m, answer);
    SendingTick(c.phy, high);
    PollEnds(a, s);
    NothingToDrain(h);
    poll := PollTx(s.phy).1;
    k := s.(phy := PollTx(s.phy).0);
  }

  // ---- An idle line ----

  /** Idle, with nothing staged, no window and no cancel. */
  predicate Free(c: Core) {
    && Rest(c) && c.phy.state.Idle? && !c.phy.busy && c.phy.debounce == 0 && c.staged.None?
    && c.session.window == 0 && c.control.requested == 0
  }

  /** And with a request taken up. */
  predicate Waiting(c: Core) {
    Free(c) && c.demand.pending.Some?
  }

  lemma FreeArm(c: Core)
    requires Free(c)
    ensures Armable(c)
    ensures var d, a := TakeUp(c.demand), ArmPending(c);
            && Rest(a) && a.sniffer == c.sniffer && a.demand == d && a.control == c.control && a.staged == c.staged
            && a.session.window == 0
            && (d.pending.Some? ==>
                  if c.phy.idleCount < d.pending.value.minIdle then a.phy == c.phy && a.session == c.session
                  else a.phy == LoadTx(c.phy, d.pending.value.frame, false) && !a.session.isAnswer)
  {
    hide ArmForward;
    ArmReady(c);
    ArmForwardBase(c);
  }

  lemma WaitingArm(c: Core)
    requires Waiting(c)
    ensures Armable(c)
    ensures var r, a := c.demand.pending.value, ArmPending(c);
            && Rest(a) && a.sniffer == c.sniffer && a.demand == c.demand && a.control == c.control && a.staged == c.staged
            && a.session.window == 0
            && (if c.phy.idleCount < r.minIdle then a == c else a.phy == LoadTx(c.phy, r.frame, false) && !a.session.isAnswer)
  {
    hide ArmForward;
    ArmReady(c);
    ArmForwardBase(c);
  }

  /** A recessive tick of an idle line. */
  lemma WaitingTick(c: Core)
    requires Waiting(c) && c.phy.idleCount < c.demand.pending.value.minIdle
    ensures Ready(c)
    ensures var r := IsrTick(c, true, None);
            Waiting(r) && r.phy == Tick(c.phy, true) && r.demand == c.demand && r.phy.idleCount == SatAdd(c.phy.idleCount, 0xFFFF)
            && r.phy.out == c.phy.out
  {
    hide ArmPending, Sample, StepHeld, DrainCompletedRx;
    var a, s, k, h := Stages(c, true, None);
    WaitingArm(c);
    IdleSample(c);
    StepHeldQuiet(k, None);
    NothingToDrain(h);
  }

  lemma IdleSample(c: Core)
    requires Waiting(c)
    ensures var s := Sample(c, true, c.phy.rx.state);
            && s.session == c.session && s.phy.state.Idle? && s.phy.debounce == 0 && !s.phy.busy && s.phy.rx == c.phy.rx
            && s.phy.idleCount == SatAdd(c.phy.idleCount, 0xFFFF) && s.phy.out == c.phy.out
  {
    hide HeldOk, AllSendable;
  }

  /** The gate is met: the frame is loaded, and its lead begins in the same tick. */
  lemma FreeArms(c: Core)
    requires Free(c) && TakeUp(c.demand).pending.Some? && c.phy.idleCount >= TakeUp(c.demand).pending.value.minIdle
    ensures Ready(c) && Sendable(TakeUp(c.demand).pending.value.frame)
    ensures var f, r := TakeUp(c.demand).pending.value.frame, IsrTick(c, true, None);
            && Rest(r) && ForwardOnWire(r) && r.demand == TakeUp(c.demand) && r.control == c.control && r.staged.None?
            && r.phy == Tick(LoadTx(c.phy, f, false), true)
  {
    hide ArmPending, Sample, StepHeld, DrainCompletedRx, Tick;
    var a, s, k, h := Stages(c, true, None);
    FreeArm(c);
    TakeUpSendable(c.demand);
    LeadGoesOn(c.phy, TakeUp(c.demand).pending.value.frame);
    SampleBusy(a, true);
    StepHeldQuiet(k, None);
    NothingToDrain(h);
    assert s.phy.busy;
    assert k == s;
  }

  lemma LeadGoesOn(p: Phy, f: Frame)
    requires WellFormed(p) && |f.data| == DATA_LEN
    ensures WellFormed(LoadTx(p, f, false)) && Tick(LoadTx(p, f, false), true).busy
    ensures Tick(LoadTx(p, f, false), true).rx.state.Empty?
  {
  }
}
