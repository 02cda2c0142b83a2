/** What the event of an ended request says, and to whom it is addressed (isr.rs). */
module IsrEvents {
  import opened Wrappers
  import opened Fsm
  import opened PhySteps
  import opened Isr
  import opened IsrBase
  import opened IsrSniffer
  import opened IsrLedger
  import opened IsrReports
  import opened IsrBusy

  /** Nothing but a transmission's end happens in a tick that starts with a forward frame on the wire. */
  lemma WireTick(c: Core, high: bool, answer: Option<u8>) returns (s: Core, k: Core)
    requires Rest(c) && CalmInv(c) && ForwardOnWire(c)
    ensures Ready(c) && Sampled(c, s) && s.phy == Tick(c.phy, high) && k == Conclude(s, true)
    ensures var r := IsrTick(c, high, answer);
            r.ledger == k.ledger && r.outbox == k.outbox && r.demand == k.demand && r.session == k.session
    ensures s.session == c.session
  {
    hide ArmPending, Sample, StepHeld, DrainCompletedRx, Tick, Rest, CalmInv, Conclude;
    var a, h;
    a, s, k, h := Stages(c, high, answer);
    CalmRequest(c);
    UncancelledArm(c);
    SampleBusy(c, high);
    StepHeldBooks(k, answer);
    NothingToDrain(h);
  }

  lemma CalmRequest(c: Core)
    requires Rest(c) && CalmInv(c) && ForwardOnWire(c)
    ensures c.control.requested == 0 && !c.control.active && c.phy.busy
    ensures c.demand.pending.Some? && c.demand.pending.value.exchange == c.session.activeEpoch
  {
  }

  /** A frame driven out whole is reported at once, to its own exchange, with the idle time before it. */
  lemma SentIsReported(c: Core, high: bool, answer: Option<u8>)
    requires Rest(c) && CalmInv(c) && ForwardOnWire(c)
    ensures Ready(c) && c.demand.pending.Some?
    ensures var q, r := c.demand.pending.value, IsrTick(c, high, answer);
            if AtLastHalfBit(c) then
              && r.ledger.completed == c.ledger.completed + multiset{q.tag} && r.demand.pending.None?
              && r.outbox == PushEvent(c.outbox, q.exchange, TxComplete(c.phy.tx.preIdle))
              && r.session.window == (if c.session.expects then q.exchange else 0)
            else r.ledger.completed == c.ledger.completed
  {
    hide IsrTick, Tick, PollTx, HeldOk, AllSendable, Tags, PushEvent;
    var s, k := WireTick(c, high, answer);
    CalmRequest(c);
    SendingTick(c.phy, high);
    LastHalfBitCompletes(c, s, high);
    if !s.phy.busy {
      PollEnds(c, s);
      PollKeepsIdle(s.phy);
    }
  }

  lemma PollKeepsIdle(p: Phy)
    ensures PollTx(p).0.tx.preIdle == p.tx.preIdle && PollTx(p).0.tx.idleAfterBreak == p.tx.idleAfterBreak
  {
  }

  /** A break that ends without a restart is reported at once, to the exchange whose frame collided. */
  lemma CollisionIsReported(c: Core, high: bool, answer: Option<u8>)
    requires Rest(c) && CalmInv(c) && ForwardOnWire(c)
    ensures Ready(c) && c.demand.pending.Some?
    ensures var q, r := c.demand.pending.value, IsrTick(c, high, answer);
            var ended := c.phy.state.CollisionTx? && !Tick(c.phy, high).busy;
            var again := Tick(c.phy, high).tx.idleAfterBreak && q.restartGate != 0;
            if ended && !again then
              && r.ledger.collided == c.ledger.collided + multiset{q.tag} && r.demand.pending.None? && r.demand.queue == []
              && r.outbox == PushEvent(c.outbox, q.exchange, TxCollision)
            else
              && r.ledger.collided == c.ledger.collided
              && (ended ==> r.demand == c.demand.(pending := Some(q.(minIdle := q.restartGate, restartGate := 0)))
                            && r.outbox == c.outbox)
  {
    hide IsrTick, Tick, PollTx, HeldOk, AllSendable, Tags, PushEvent;
    var s, k := WireTick(c, high, answer);
    CalmRequest(c);
    SendingTick(c.phy, high);
    if !s.phy.busy {
      PollEnds(c, s);
      PollKeepsIdle(s.phy);
    }
  }

  /** A request voided by another's frame is reported to its own exchange, before the window hears of that frame. */
  lemma VoidedIsReported(c: Core, high: bool, answer: Option<u8>)
    requires Rest(c) && CalmInv(c) && !c.phy.busy
    ensures Ready(c)
    ensures var a, r := ArmPending(c), IsrTick(c, high, answer);
            r.ledger.voided != c.ledger.voided ==>
              && a.demand.pending.Some? && r.ledger.voided == c.ledger.voided + TagOf(a.demand.pending)
              && r.demand.pending.None? && r.demand.queue == []
              && var o := PushEvent(a.outbox, a.demand.pending.value.exchange, TxVoided);
                 if a.session.window == 0 then r.outbox == o
                 else exists e: SessionEvent :: e.ForeignForward? && r.outbox == PushEvent(o, a.session.window, e)
  {
    hide ArmPending, Sample, StepHeld, Tick, Rest, CalmInv, PushEvent, DrainCompletedRx;
    var a, s, k, h := Stages(c, high, answer);
    ArmVoidsNothing(c);
    StepHeldBooks(k, answer);
    QuietEnd(a, s, high);
    DrainVoids(h);
  }

  lemma ArmVoidsNothing(c: Core)
    requires Rest(c)
    ensures Armable(c) && ArmPending(c).ledger.voided == c.ledger.voided
  {
    hide Tags, LineUnder, GateAt;
    ArmReady(c);
    var k := ApplyRequestedCancel(c);
    if !k.phy.busy {
      TryArmBooks(k);
    }
  }

  /** A frame armed in this tick does not end in it. */
  lemma QuietEnd(a: Core, s: Core, high: bool)
    requires Rest(a) && Sampled(a, s) && s.phy == Tick(a.phy, high)
    ensures var k := Conclude(s, a.phy.busy);
            && k.ledger.voided == a.ledger.voided
            && (s.phy.rx.state.Completed? ==> k == s && !a.phy.busy)
  {
    hide Tick, Tags, HeldOk, AllSendable, Push;
    if a.phy.busy {
      SendingTick(a.phy, high);
    }
  }

  lemma DrainVoids(h: Core)
    ensures var r := DrainCompletedRx(h);
            r.ledger.voided != h.ledger.voided ==>
              && h.phy.rx.state.Completed? && h.demand.pending.Some? && r.ledger.voided == h.ledger.voided + TagOf(h.demand.pending)
              && r.demand.pending.None? && r.demand.queue == []
              && var o := PushEvent(h.outbox, h.demand.pending.value.exchange, TxVoided);
                 if h.session.window == 0 then r.outbox == o
                 else exists e: SessionEvent :: e.ForeignForward? && r.outbox == PushEvent(o, h.session.window, e)
  {
    hide PushEvent, PushRing, Tags;
  }
}
