/** Cancellation: nothing accepted before an acknowledged cancel is ever armed again (isr.rs). */
module IsrCancel {
  import opened Wrappers
  import opened Fsm
  import opened RxDecode
  import opened Isr
  import opened IsrBase
  import opened IsrLedger

  /** Requests with tags below `limit` are gone, but for one on the wire that goes when it ends. */
  predicate Gone(d: Demand, active: bool, limit: nat) {
    && (d.cell.Some? ==> d.cell.value.tag >= limit)
    && (forall i | 0 <= i < |d.queue| :: d.queue[i].tag >= limit)
    && (d.pending.Some? && d.pending.value.tag < limit ==> active)
  }

  predicate CancelInv(c: Core, limit: nat) {
    Gone(c.demand, c.control.active, limit) && limit <= c.ledger.nextTag
  }

  /** The same tags below the limit were armed as often. */
  ghost predicate SameArms(c: Core, r: Core, limit: nat) {
    forall t: nat | t < limit :: r.ledger.armed[t] == c.ledger.armed[t]
  }

  // ---- The parts of a tick ----

  /** The acknowledgement itself. */
  lemma AckClears(c: Core)
    requires c.control.requested != 0
    ensures var k := ApplyRequestedCancel(c);
            && CancelInv(k, c.ledger.nextTag) && k.control.acknowledged == c.control.requested && k.control.requested == 0
            && k.ledger.armed == c.ledger.armed && k.ledger.nextTag == c.ledger.nextTag
  {
  }

  lemma ApplyCancels(c: Core, limit: nat)
    requires CancelInv(c, limit)
    ensures var k := ApplyRequestedCancel(c);
            CancelInv(k, limit) && k.ledger.armed == c.ledger.armed && k.ledger.nextTag == c.ledger.nextTag
  {
  }

  lemma ArmForwardCancels(c: Core, limit: nat)
    requires Rest(c) && c.phy.state.Idle? && c.session.window == 0 && CancelInv(c, limit)
    ensures Armable(c)
    ensures var r := ArmForward(c);
            CancelInv(r, limit) && SameArms(c, r, limit) && r.control == c.control && r.ledger.nextTag == c.ledger.nextTag
  {
    hide ArmForward, LoadTx, HeldOk, AllSendable;
    ArmReady(c);
    ArmForwardBase(c);
    NotActiveWhenIdle(c);
  }

  lemma NotActiveWhenIdle(c: Core)
    requires Rest(c) && !c.phy.busy
    ensures !c.control.active
  {
  }

  lemma ArmIdleCancels(k: Core, limit: nat)
    requires Rest(k) && !k.phy.busy && CancelInv(k, limit)
    ensures Armable(k)
    ensures var r := ArmIdle(k);
            CancelInv(r, limit) && SameArms(k, r, limit) && r.control == k.control && r.ledger.nextTag == k.ledger.nextTag
  {
    hide Rest, TryArm, ArmForward, Gone;
    ArmReady(k);
    TryArmBase(k);
    TryArmBooks(k);
    TryArmControl(k);
    var (a, tried) := TryArm(k);
    if tried.NotStaged? && a.session.window == 0 && a.phy.state.Idle? && !LineDebouncing(a.phy) {
      ArmReady(a);
      ArmForwardCancels(a, limit);
    }
  }

  lemma TryArmControl(c: Core)
    requires Armable(c)
    ensures TryArm(c).0.control == c.control
  {
    hide LineUnder, GateAt;
  }

  lemma ForwardCancels(k: Core, poll: TxPoll, limit: nat)
    requires CancelInv(k, limit)
    ensures var r := ReportForward(k, poll);
            && CancelInv(r, limit) && r.ledger.armed == k.ledger.armed
            && r.control.requested == k.control.requested && r.control.acknowledged == k.control.acknowledged
            && r.ledger.nextTag == k.ledger.nextTag
  {
    hide Tags, Push;
  }

  lemma ConcludeCancels(s: Core, wasBusy: bool, limit: nat)
    requires CancelInv(s, limit)
    ensures var k := Conclude(s, wasBusy);
            && CancelInv(k, limit) && k.ledger.armed == s.ledger.armed
            && k.control.requested == s.control.requested && k.control.acknowledged == s.control.acknowledged
            && k.ledger.nextTag == s.ledger.nextTag
  {
    hide ReportForward, Gone;
    if wasBusy && !s.phy.busy {
      var (p, poll) := PollTx(s.phy);
      SameGone(s, s.(phy := p), limit);
      ForwardCancels(s.(phy := p), poll, limit);
    }
  }

  lemma SameGone(s: Core, k: Core, limit: nat)
    requires CancelInv(s, limit) && k.demand == s.demand && k.control == s.control && k.ledger == s.ledger
    ensures CancelInv(k, limit)
  {
  }

  lemma DrainCancels(h: Core, limit: nat)
    requires CancelInv(h, limit)
    ensures var r := DrainCompletedRx(h);
            && CancelInv(r, limit) && r.ledger.armed == h.ledger.armed && r.control == h.control
            && r.ledger.nextTag == h.ledger.nextTag
  {
    hide AbortBatchTail, CloseWindowWith, PushSniffer, Gone;
    if h.phy.rx.state.Completed? {
      var c := h.(phy := TakeCompleted(h.phy).0);
      var ev := RxEvent(h.phy.rx.last, c.clock.busEpoch, c.clock.now, 0, NotDecoded);
      WindowAside(c, RxComplete(ev), ev);
      var n := NoteForwardCapture(c);
      var fev := RxEvent(h.phy.rx.last, n.clock.busEpoch, n.clock.now, 0, NotDecoded);
      AbortCancels(n, limit);
      WindowAside(AbortBatchTail(n), ForeignForward(fev.capture.preIdle, fev.capture.sampleCount), fev);
    }
  }

  lemma AbortCancels(c: Core, limit: nat)
    requires CancelInv(c, limit)
    ensures var r := AbortBatchTail(c);
            && CancelInv(r, limit) && r.ledger.armed == c.ledger.armed && r.control == c.control
            && r.ledger.nextTag == c.ledger.nextTag
  {
    hide Tags, PushEvent;
  }

  /** Neither a window's event nor a sniffed capture touches a request. */
  lemma WindowAside(c: Core, event: SessionEvent, ev: RxEvent)
    ensures var w := CloseWindowWith(c, event); w.demand == c.demand && w.control == c.control && w.ledger == c.ledger
    ensures var r := PushSniffer(CloseWindowWith(c, event), ev);
            r.demand == c.demand && r.control == c.control && r.ledger == c.ledger
  {
    hide PushEvent, PushRing, NewlyHeld;
  }

  /** From the arming on, the tick keeps them gone. */
  lemma RestOfTickCancels(c: Core, high: bool, answer: Option<u8>, limit: nat)
    requires Rest(c) && Armable(c) && CancelInv(ArmPending(c), limit)
    ensures Ready(c)
    ensures var a, r := ArmPending(c), IsrTick(c, high, answer);
            && CancelInv(r, limit) && r.ledger.armed == a.ledger.armed
            && r.control.requested == a.control.requested && r.control.acknowledged == a.control.acknowledged
            && r.ledger.nextTag == a.ledger.nextTag
  {
    hide ArmPending, Sample, Conclude, StepHeld, DrainCompletedRx, Tick, Rest, Base, Gone;
    var a, s, k, h := Stages(c, high, answer);
    ConcludeCancels(s, a.phy.busy, limit);
    StepHeldBooks(k, answer);
    DrainCancels(h, limit);
  }

  lemma TickCancels(c: Core, high: bool, answer: Option<u8>, limit: nat)
    requires Rest(c) && CancelInv(c, limit)
    ensures Ready(c)
    ensures var r := IsrTick(c, high, answer); CancelInv(r, limit) && SameArms(c, r, limit)
  {
    hide ApplyRequestedCancel, ArmIdle, Rest, IsrTick, Gone;
    ArmReady(c);
    RestIsReady(c);
    ApplyCancels(c, limit);
    CancelBase(c);
    var k := ApplyRequestedCancel(c);
    if !k.phy.busy {
      ArmIdleCancels(k, limit);
    }
    RestOfTickCancels(c, high, answer, limit);
  }

  /** The tick that acknowledges a cancel: from here on everything accepted so far is gone. */
  lemma AckTick(c: Core, high: bool, answer: Option<u8>)
    requires Rest(c) && c.control.requested != 0
    ensures Ready(c)
    ensures var r, limit := IsrTick(c, high, answer), c.ledger.nextTag;
            && r.control.acknowledged == c.control.requested && r.control.requested == 0
            && CancelInv(r, limit) && SameArms(c, r, limit)
  {
    hide ApplyRequestedCancel, ArmIdle, Rest, IsrTick, Gone;
    ArmReady(c);
    RestIsReady(c);
    AckClears(c);
    CancelBase(c);
    var k, limit := ApplyRequestedCancel(c), c.ledger.nextTag;
    if !k.phy.busy {
      ArmIdleCancels(k, limit);
    }
    RestOfTickCancels(c, high, answer, limit);
  }

  // ---- Runs ----

  lemma StepCancels(c: Core, a: Action, limit: nat)
    requires Rest(c) && CancelInv(c, limit)
    ensures Ready(c) && CancelInv(Step(c, a), limit) && SameArms(c, Step(c, a), limit)
  {
    hide IsrTick, PopSessionEventFor;
    RestIsReady(c);
    match a
    case TickWith(high, answer) =>
      TickCancels(c, high, answer, limit);
    case PopEvent(e) =>
      PopKeeps(c, e);
    case _ =>
  }

  lemma {:induction false} RunCancels(c: Core, run: seq<Action>, limit: nat)
    requires Rest(c) && CancelInv(c, limit)
    ensures SameArms(c, Exec(c, run), limit)
    decreases |run|
  {
    hide Step, CancelInv, Rest;
    if run != [] {
      StepRests(c, run[0]);
      StepCancels(c, run[0], limit);
      RunCancels(Step(c, run[0]), run[1..], limit);
    }
  }

  /**
   Once a cancel is acknowledged, no request accepted before it is ever armed again: not from the
   cell, the queue or the pending slot, not after a yield in its lead nor after a collision break.
   */
  lemma CancelledIsNeverArmed(c: Core, high: bool, answer: Option<u8>, run: seq<Action>, t: nat)
    requires Rest(c) && c.control.requested != 0 && t < c.ledger.nextTag
    ensures Ready(c)
    ensures var r := IsrTick(c, high, answer);
            && r.control.acknowledged == c.control.requested && Rest(r)
            && Exec(r, run).ledger.armed[t] == c.ledger.armed[t]
  {
    hide IsrTick, Exec, Rest, CancelInv;
    AckTick(c, high, answer);
    StepRests(c, TickWith(high, answer));
    RunCancels(IsrTick(c, high, answer), run, c.ledger.nextTag);
  }
}
