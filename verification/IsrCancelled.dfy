/** A cancelled exchange is silent: once its cancel is acknowledged no event is addressed to it (isr.rs). */
module IsrCancelled {
  import opened Wrappers
  import opened Fsm
  import opened PhaseSearch
  import opened RxDecode
  import opened PhySteps
  import opened Isr
  import opened IsrBase

  /** Nothing asks for exchange `e` any more; its frame may still be on the wire, marked as cancelled. */
  predicate Forgotten(c: Core, e: nat) {
    && Without(c.demand, e) && c.session.window != e
    && (ForwardOnWire(c) && c.session.activeEpoch == e ==> c.control.active)
    && (c.demand.pending.Some? && c.demand.pending.value.exchange == e ==> c.control.active && ForwardOnWire(c))
  }

  predicate Without(d: Demand, e: nat) {
    (d.cell.Some? ==> d.cell.value.exchange != e) && forall i | 0 <= i < |d.queue| :: d.queue[i].exchange != e
  }

  /** Whatever was pushed from one state to the other is addressed to somebody else. */
  predicate Spared(o: Outbox, q: Outbox, e: nat) {
    o.log <= q.log && forall i | |o.log| <= i < |q.log| :: q.log[i].0 != e
  }

  lemma PushSpares(o: Outbox, exchange: nat, event: SessionEvent, e: nat)
    requires exchange != e
    ensures Spared(o, PushEvent(o, exchange, event), e)
  {
  }

  lemma SparedOn(o: Outbox, p: Outbox, q: Outbox, e: nat)
    requires Spared(o, p, e) && Spared(p, q, e)
    ensures Spared(o, q, e)
  {
    forall i | |o.log| <= i < |q.log| ensures q.log[i].0 != e {
      if i < |p.log| {
        assert q.log[i] == p.log[i];
      }
    }
  }

  // ---- Arming ----

  /** The cancel takes everything of the exchange away. */
  lemma CancelForgets(c: Core)
    requires Rest(c) && c.control.requested != 0
    ensures var k := ApplyRequestedCancel(c);
            Forgotten(k, c.control.requested) && k.control.requested == 0 && k.outbox == c.outbox
            && k.control.acknowledged == c.control.requested
  {
    hide Tags, Sound, HeldOk, AllSendable;
  }

  lemma TryArmForgets(c: Core, e: nat)
    requires Rest(c) && !c.phy.busy && Forgotten(c, e)
    ensures var (a, tried) := TryArm(c);
            Forgotten(a, e) && a.outbox == c.outbox && a.control == c.control && (tried.NotStaged? ==> !a.phy.busy)
  {
    hide HeldOk, AllSendable, ReceptionBeganInTheBackwardWindow, Without;
  }

  lemma TakeUpForgets(d: Demand, e: nat)
    requires Without(d, e) && (d.pending.Some? ==> d.pending.value.exchange != e)
    ensures Without(TakeUp(d), e) && (TakeUp(d).pending.Some? ==> TakeUp(d).pending.value.exchange != e)
  {
  }

  lemma ArmForwardForgets(c: Core, e: nat)
    requires Rest(c) && c.phy.state.Idle? && c.session.window == 0 && !c.phy.busy && Forgotten(c, e)
    ensures Armable(c)
    ensures var r := ArmForward(c); Forgotten(r, e) && r.outbox == c.outbox && r.control == c.control
  {
    hide ArmForward, HeldOk, AllSendable, TakeUp, Without;
    ArmReady(c);
    TakeUpForgets(c.demand, e);
    ArmForwardBase(c);
  }

  /** The rest of the arming, once no cancel is asked for. */
  lemma ArmForgets(k: Core, e: nat)
    requires Rest(k) && Forgotten(k, e)
    ensures Armable(k)
    ensures var a := if k.phy.busy then k else ArmIdle(k); Forgotten(a, e) && a.outbox == k.outbox && a.control == k.control
  {
    hide Rest, TryArm, ArmForward, Forgotten;
    ArmReady(k);
    if !k.phy.busy {
      TryArmBase(k);
      TryArmForgets(k, e);
      var (a, tried) := TryArm(k);
      if tried.NotStaged? && a.session.window == 0 && a.phy.state.Idle? && !LineDebouncing(a.phy) {
        ArmForwardForgets(a, e);
      }
    }
  }

  // ---- The rest of the tick ----

  lemma ForwardForgets(k: Core, poll: TxPoll, e: nat)
    requires !k.phy.busy && !k.session.isAnswer && Without(k.demand, e) && k.session.window != e && e != 0
    requires !k.control.active ==> k.session.activeEpoch != e && (k.demand.pending.Some? ==> k.demand.pending.value.exchange != e)
    requires !poll.Transmitting?
    ensures var r := ReportForward(k, poll);
            Forgotten(r, e) && Spared(k.outbox, r.outbox, e) && r.control.requested == k.control.requested
  {
    hide Tags, PushEvent, Spared;
    SparedSelf(k.outbox, e);
    if !k.control.active {
      PushSpares(k.outbox, k.session.activeEpoch, TxComplete(k.phy.tx.preIdle), e);
      PushSpares(k.outbox, k.session.activeEpoch, TxCollision, e);
    }
  }

  lemma SparedSelf(o: Outbox, e: nat)
    ensures Spared(o, o, e)
  {
  }

  lemma ConcludeForgets(a: Core, s: Core, high: bool, e: nat)
    requires Rest(a) && Forgotten(a, e) && Sampled(a, s) && s.phy == Tick(a.phy, high) && e != 0
    ensures var k := Conclude(s, a.phy.busy);
            Forgotten(k, e) && Spared(a.outbox, k.outbox, e) && k.control.requested == a.control.requested
  {
    hide Tick, Tags, HeldOk, AllSendable, PollTx, ReportForward, PushEvent, Spared, Without;
    SparedSelf(a.outbox, e);
    if a.phy.busy {
      SendingTick(a.phy, high);
      if !s.phy.busy {
        PollEnds(a, s);
        var (p, poll) := PollTx(s.phy);
        if !a.session.isAnswer {
          ForwardForgets(s.(phy := p), poll, e);
        }
      }
    } else {
      ListeningTick(a.phy, high);
    }
  }

  lemma StepHeldForgets(k: Core, answer: Option<u8>, e: nat)
    requires HeldOk(k.sniffer) && Forgotten(k, e)
    ensures var h := StepHeld(k, answer); Forgotten(h, e) && h.outbox == k.outbox && h.control == k.control
  {
    hide SearchStep, Without;
  }

  lemma WindowForgets(c: Core, event: SessionEvent, e: nat)
    requires Forgotten(c, e) && e != 0
    ensures var r := CloseWindowWith(c, event); Forgotten(r, e) && Spared(c.outbox, r.outbox, e) && r.control == c.control
  {
    hide PushEvent, Without, Spared;
    SparedSelf(c.outbox, e);
    PushSpares(c.outbox, c.session.window, event, e);
  }

  lemma AbortForgets(c: Core, e: nat)
    requires Forgotten(c, e) && !c.phy.busy
    ensures var r := AbortBatchTail(c); Forgotten(r, e) && Spared(c.outbox, r.outbox, e) && r.control == c.control
  {
    hide PushEvent, Spared, Tags;
    SparedSelf(c.outbox, e);
    if c.demand.pending.Some? {
      PushSpares(c.outbox, c.demand.pending.value.exchange, TxVoided, e);
    }
  }

  lemma SnifferForgets(c: Core, ev: RxEvent, e: nat)
    requires Forgotten(c, e)
    ensures var r := PushSniffer(c, ev); Forgotten(r, e) && r.outbox == c.outbox && r.control == c.control
  {
    hide PushRing, Without;
  }

  lemma DrainForgets(h: Core, e: nat)
    requires Forgotten(h, e) && e != 0 && (h.phy.rx.state.Completed? ==> !h.phy.busy)
    ensures var r := DrainCompletedRx(h); Forgotten(r, e) && Spared(h.outbox, r.outbox, e) && r.control == h.control
  {
    hide CloseWindowWith, AbortBatchTail, PushSniffer, Without, Spared;
    SparedSelf(h.outbox, e);
    if h.phy.rx.state.Completed? {
      var c := h.(phy := TakeCompleted(h.phy).0);
      var n := NoteForwardCapture(c);
      var back := RxEvent(h.phy.rx.last, c.clock.busEpoch, c.clock.now, 0, NotDecoded);
      WindowForgets(c, RxComplete(back), e);
      SnifferForgets(CloseWindowWith(c, RxComplete(back)), back, e);
      var ev := RxEvent(h.phy.rx.last, n.clock.busEpoch, n.clock.now, 0, NotDecoded);
      var foreign := ForeignForward(ev.capture.preIdle, ev.capture.sampleCount);
      AbortForgets(n, e);
      var b := AbortBatchTail(n);
      WindowForgets(b, foreign, e);
      SnifferForgets(CloseWindowWith(b, foreign), ev, e);
      SparedOn(n.outbox, b.outbox, CloseWindowWith(b, foreign).outbox, e);
    }
  }

  /** A tick in which no cancel is asked for, or the one that acknowledges the cancel of `e`. */
  lemma TickForgets(c: Core, high: bool, answer: Option<u8>, e: nat)
    requires Rest(c) && e != 0
    requires c.control.requested == e || (c.control.requested == 0 && Forgotten(c, e))
    ensures Ready(c)
    ensures var r := IsrTick(c, high, answer); Forgotten(r, e) && r.control.requested == 0 && Spared(c.outbox, r.outbox, e)
  {
    hide ArmIdle, ApplyRequestedCancel, Sample, Conclude, StepHeld, DrainCompletedRx, Tick, Rest, Base, Forgotten, Spared;
    var a, s, k, h := Stages(c, high, answer);
    CancelBase(c);
    NothingAsked(c);
    if c.control.requested != 0 {
      CancelForgets(c);
    }
    ArmForgets(ApplyRequestedCancel(c), e);
    ConcludeForgets(a, s, high, e);
    StepHeldForgets(k, answer, e);
    DrainForgets(h, e);
    SparedOn(c.outbox, k.outbox, DrainCompletedRx(h).outbox, e);
  }

  lemma NothingAsked(c: Core)
    ensures c.control.requested == 0 ==> ApplyRequestedCancel(c) == c
  {
  }

  // ---- Runs ----

  /** Nothing is cancelled, and nothing is submitted for `e`. */
  predicate LeavesAlone(a: Action, e: nat) {
    match a
    case Submit(r) => r.exchange != e
    case Queue(r) => r.exchange != e
    case Cancel(_) => false
    case _ => true
  }

  lemma StepForgets(c: Core, a: Action, e: nat)
    requires Rest(c) && e != 0 && c.control.requested == 0 && Forgotten(c, e) && LeavesAlone(a, e)
    ensures Ready(c)
    ensures var r := Step(c, a); Forgotten(r, e) && r.control.requested == 0 && Spared(c.outbox, r.outbox, e)
  {
    hide IsrTick, PopSessionEventFor, Sendable, Spared;
    RestIsReady(c);
    SparedSelf(c.outbox, e);
    match a
    case TickWith(high, answer) =>
      TickForgets(c, high, answer, e);
    case PopEvent(x) =>
      PopKeeps(c, x);
      PopSpares(c, x, e);
    case Cancel(_) =>
    case _ =>
  }

  lemma {:induction false} PopSpares(c: Core, exchange: nat, e: nat)
    ensures Spared(c.outbox, PopSessionEventFor(c, exchange).0.outbox, e)
    ensures PopSessionEventFor(c, exchange).0.outbox.log == c.outbox.log
    decreases |c.outbox.ring|
  {
    if c.outbox.ring != [] {
      var k := c.(outbox := c.outbox.(ring := c.outbox.ring[1..], taken := c.outbox.taken + 1));
      PopSpares(k, exchange, e);
    }
  }

  lemma {:induction false} RunForgets(c: Core, run: seq<Action>, e: nat)
    requires Rest(c) && e != 0 && c.control.requested == 0 && Forgotten(c, e)
    requires forall i | 0 <= i < |run| :: LeavesAlone(run[i], e)
    ensures Spared(c.outbox, Exec(c, run).outbox, e)
    decreases |run|
  {
    hide Step, Rest, Forgotten, Spared;
    SparedSelf(c.outbox, e);
    if run != [] {
      StepRests(c, run[0]);
      StepForgets(c, run[0], e);
      var k := Step(c, run[0]);
      RunForgets(k, run[1..], e);
      SparedOn(c.outbox, k.outbox, Exec(k, run[1..]).outbox, e);
    }
  }

  /**
   From the tick that acknowledges the cancel of an exchange on, in every run that submits nothing
   for it and cancels nothing else, no event is addressed to that exchange.
   */
  lemma CancelledIsSilent(c: Core, high: bool, answer: Option<u8>, run: seq<Action>)
    requires Rest(c) && c.control.requested != 0
    requires forall i | 0 <= i < |run| :: LeavesAlone(run[i], c.control.requested)
    ensures Ready(c) && Rest(IsrTick(c, high, answer))
    ensures Spared(c.outbox, Exec(IsrTick(c, high, answer), run).outbox, c.control.requested)
  {
    hide IsrTick, Rest, Spared, Exec;
    var e := c.control.requested;
    StepRests(c, TickWith(high, answer));
    TickForgets(c, high, answer, e);
    RunForgets(IsrTick(c, high, answer), run, e);
    SparedOn(c.outbox, IsrTick(c, high, answer).outbox, Exec(IsrTick(c, high, answer), run).outbox, e);
  }

  /**
   A second cancel, of another exchange, gives the first one its voice back: the frame on the wire,
   cancelled or not, is reported to its exchange when it ends.
   */
  lemma SecondCancelSpeaks(c: Core, high: bool, answer: Option<u8>)
    requires Rest(c) && AtLastHalfBit(c)
    requires c.control.requested != 0 && c.control.requested != c.session.activeEpoch
    ensures Ready(c)
    ensures IsrTick(c, high, answer).outbox == PushEvent(c.outbox, c.session.activeEpoch, TxComplete(c.phy.tx.preIdle))
  {
    hide ApplyRequestedCancel, Sample, StepHeld, DrainCompletedRx, Tick, Rest, PushEvent, ArmIdle, PollTx;
    var a, s, k, h := Stages(c, high, answer);
    SecondCancel(c);
    EndsSent(a, s, high);
    StepHeldReports(k, answer);
    NothingCompleted(h);
  }

  lemma SecondCancel(c: Core)
    requires c.phy.busy && !c.session.isAnswer && c.control.requested != 0 && c.control.requested != c.session.activeEpoch
    ensures var k := ApplyRequestedCancel(c);
            && k.phy == c.phy && !k.control.active && k.outbox == c.outbox
            && k.session.activeEpoch == c.session.activeEpoch && !k.session.isAnswer
  {
    hide Tags;
  }

  lemma EndsSent(a: Core, s: Core, high: bool)
    requires Rest(a) && a.phy.state.Tx? && a.phy.busy && a.phy.tx.count >= a.phy.tx.frame.length
    requires !a.session.isAnswer && !a.control.active && Sampled(a, s) && s.phy == Tick(a.phy, high)
    ensures var k := Conclude(s, a.phy.busy);
            && k.outbox == PushEvent(a.outbox, a.session.activeEpoch, TxComplete(a.phy.tx.preIdle))
            && !k.phy.rx.state.Completed?
  {
    hide Tick, HeldOk, AllSendable, PushEvent, Tags;
    SendingTick(a.phy, high);
  }

  lemma StepHeldReports(k: Core, answer: Option<u8>)
    requires HeldOk(k.sniffer)
    ensures StepHeld(k, answer).outbox == k.outbox && StepHeld(k, answer).phy == k.phy
  {
    hide SearchStep;
  }

  lemma NothingCompleted(h: Core)
    ensures !h.phy.rx.state.Completed? ==> DrainCompletedRx(h) == h
  {
    hide RouteForward, RouteBackward;
  }
}
