/**
 Recovery from a collision on an otherwise idle line: a break of exactly twelve dominant ticks,
 then one restart whose first edge comes exactly as long after the release as the sender asked
 (fsm.rs, isr.rs; section 9.1.4 and Table 25 of IEC 62386-101).
 */
module IsrRecovery {
  import opened Wrappers
  import opened HalfBits
  import opened Fsm
  import opened RoundTrip
  import opened PhySteps
  import opened Isr
  import opened IsrBase
  import opened IsrLedger
  import opened IsrBusy

  /** `k` ticks in which nobody else drives the line. */
  function EchoAfter(c: Core, k: nat): (r: Core)
    requires Rest(c)
    ensures Rest(r)
  {
    if k == 0 then c
    else
      var d := EchoAfter(c, k - 1);
      StepRests(d, TickWith(d.phy.out, None));
      IsrTick(d, d.phy.out, None)
  }

  // ---- The break ----

  /** `k` ticks after the collision was seen. */
  predicate Breaking(c: Core, r: Request, k: nat) {
    && Rest(c) && ForwardOnWire(c) && c.phy.state.CollisionTx? && c.phy.tx.slot == k <= 13
    && c.demand.pending == Some(r) && c.control.requested == 0 && !c.control.active && c.staged.None?
    && (k >= 1 ==> c.phy.out == (k == 13)) && (k == 13 ==> c.phy.highRun == 0)
  }

  lemma BreakStep(c: Core, r: Request, k: nat)
    requires Breaking(c, r, k) && k < 13
    ensures Ready(c) && Breaking(IsrTick(c, c.phy.out, None), r, k + 1)
  {
    hide IsrTick, HeldOk, AllSendable;
    BreakPhy(c.phy, c.phy.out);
    BusyTick(c, c.phy.out, None);
  }

  lemma BreakPhy(p: Phy, high: bool)
    requires Sound(p) && p.state.CollisionTx? && p.tx.slot < 13
    ensures var q := Tick(p, high);
            && q.state.CollisionTx? && q.busy && q.tx.slot == p.tx.slot + 1 && q.out == (q.tx.slot == 13)
            && q.highRun == if high then SatAdd(p.highRun, 0xFFFF) else 0
  {
  }

  /** The end of the break, on a line that came back. */
  lemma BreakEndPhy(p: Phy)
    requires Sound(p) && p.state.CollisionTx? && p.tx.slot == 13 && p.highRun == 0
    ensures var q := Tick(p, true);
            && q.state.Idle? && !q.busy && q.idleCount == 1 && q.debounce == 0 && q.out && q.tx.idleAfterBreak
  {
  }

  function Restarted(r: Request): Request {
    r.(minIdle := r.restartGate, restartGate := 0)
  }

  lemma BreakEnds(c: Core, r: Request)
    requires Breaking(c, r, 13) && r.restartGate != 0
    ensures Ready(c)
    ensures var e := IsrTick(c, c.phy.out, None);
            && Waiting(e) && e.demand.pending == Some(Restarted(r)) && e.phy.idleCount == 1 && e.phy.out
            && e.ledger.restarted == c.ledger.restarted + multiset{r.tag}
  {
    hide IsrTick, Tick, Tags;
    BreakEndPhy(c.phy);
    var k, poll := EndingTick(c, true, None);
  }

  /** Without a gate the collision is reported instead. */
  lemma BreakEndsReported(c: Core, r: Request)
    requires Breaking(c, r, 13) && r.restartGate == 0
    ensures Ready(c)
    ensures var e := IsrTick(c, c.phy.out, None);
            && e.demand.pending.None? && e.demand.queue == [] && e.ledger.collided == c.ledger.collided + multiset{r.tag}
            && e.ledger.restarted == c.ledger.restarted
  {
    hide IsrTick, Tick, Tags;
    BreakEndPhy(c.phy);
    var k, poll := EndingTick(c, true, None);
  }

  // ---- The whole recovery ----

  lemma {:induction false} BreakRuns(c: Core, r: Request, k: nat)
    requires Breaking(c, r, 0) && k <= 13
    ensures Breaking(EchoAfter(c, k), r, k)
    decreases k
  {
    hide IsrTick, Breaking;
    BreakingRests(c, r, 0);
    if k > 0 {
      BreakRuns(c, r, k - 1);
      BreakStep(EchoAfter(c, k - 1), r, k - 1);
    }
  }

  lemma BreakingRests(c: Core, r: Request, k: nat)
    requires Breaking(c, r, k)
    ensures Rest(c)
  {
  }

  /** Waiting for the gate: one more recessive tick after the other. */
  lemma {:induction false} GateRuns(c: Core, r: Request, k: nat)
    requires Breaking(c, r, 0) && r.restartGate != 0 && r.restartGate <= 0xFF && 14 <= k <= 13 + r.restartGate
    ensures var e := EchoAfter(c, k);
            Waiting(e) && e.demand.pending == Some(Restarted(r)) && e.phy.idleCount == k - 13 && e.phy.out
            && e.ledger.restarted[r.tag] == c.ledger.restarted[r.tag] + 1
    decreases k
  {
    hide IsrTick, Breaking, Waiting;
    BreakingRests(c, r, 0);
    if k == 14 {
      BreakRuns(c, r, 13);
      BreakEnds(EchoAfter(c, 13), r);
      BreakKeepsCount(c, r, 13);
    } else {
      GateRuns(c, r, k - 1);
      WaitingTick(EchoAfter(c, k - 1));
      WaitingKeepsCount(EchoAfter(c, k - 1));
    }
  }

  lemma {:induction false} BreakKeepsCount(c: Core, r: Request, k: nat)
    requires Breaking(c, r, 0) && k <= 13
    ensures EchoAfter(c, k).ledger.restarted == c.ledger.restarted
    decreases k
  {
    hide IsrTick;
    if k > 0 {
      BreakKeepsCount(c, r, k - 1);
      BreakRuns(c, r, k - 1);
      var d := EchoAfter(c, k - 1);
      BreakPhy(d.phy, d.phy.out);
      BusyTick(d, d.phy.out, None);
    }
  }

  lemma WaitingKeepsCount(c: Core)
    requires Waiting(c)
    ensures Ready(c) && IsrTick(c, true, None).ledger.restarted == c.ledger.restarted
  {
    hide ArmPending, Sample, StepHeld, DrainCompletedRx, Tick;
    var a, s, k, h := Stages(c, true, None);
    ArmKeepsRestarts(c);
    WaitingArm(c);
    StepHeldQuiet(k, None);
    if a.phy.busy {
      SendingTick(a.phy, true);
      LeadGoesOn(c.phy, c.demand.pending.value.frame);
    } else {
      ListeningTick(a.phy, true);
    }
    DrainKeepsRestarts(h);
  }

  lemma ArmKeepsRestarts(c: Core)
    requires Rest(c)
    ensures Armable(c) && ArmPending(c).ledger.restarted == c.ledger.restarted
  {
    hide Tags, LineUnder, GateAt;
    ArmReady(c);
    var k := ApplyRequestedCancel(c);
    if !k.phy.busy {
      TryArmBooks(k);
    }
  }

  lemma DrainKeepsRestarts(h: Core)
    ensures DrainCompletedRx(h).ledger.restarted == h.ledger.restarted
  {
    hide Tags, Push, PushRing;
  }

  /** The restarted frame is `t` ticks past its loading. */
  predicate Resumed(e: Core, r: Request, t: nat) {
    Rest(e) && ForwardOnWire(e) && SendingAt(e.phy, r.frame, t) && e.control.requested == 0
  }

  lemma ResumeStart(d: Core, r: Request)
    requires Waiting(d) && d.demand.pending == Some(Restarted(r)) && d.phy.idleCount >= r.restartGate && d.phy.out
    ensures Ready(d) && Resumed(IsrTick(d, true, None), r, 1)
  {
    hide IsrTick, SendingAt, Rest, Tick, LoadTx;
    WaitingSendable(d);
    FreeArms(d);
    LoadedSends(d.phy, r.frame, false);
    LoadKeepsOut(d.phy, r.frame);
    SendingStep(LoadTx(d.phy, r.frame, false), r.frame, 0);
  }

  lemma ResumeStep(d: Core, r: Request, t: nat)
    requires Resumed(d, r, t) && t < 4
    ensures Ready(d) && Resumed(IsrTick(d, d.phy.out, None), r, t + 1)
  {
    hide IsrTick, SendingAt, Tick;
    SendingStep(d.phy, r.frame, t);
    SendingTick(d.phy, d.phy.out);
    StillBusy(Tick(d.phy, d.phy.out), r.frame, t + 1);
    BusyTick(d, d.phy.out, None);
  }

  lemma {:induction false} RestartRuns(c: Core, r: Request, t: nat)
    requires Breaking(c, r, 0) && 0 < r.restartGate <= 0xFF && 1 <= t <= 4
    ensures Resumed(EchoAfter(c, 13 + r.restartGate + t), r, t)
    decreases t
  {
    hide IsrTick, Breaking, Resumed, Waiting, Rest;
    BreakingRests(c, r, 0);
    var n := 13 + r.restartGate;
    if t == 1 {
      GateRuns(c, r, n);
      ResumeStart(EchoAfter(c, n), r);
    } else {
      RestartRuns(c, r, t - 1);
      ResumeStep(EchoAfter(c, n + t - 1), r, t - 1);
    }
  }

  lemma LoadKeepsOut(p: Phy, f: Frame)
    requires WellFormed(p) && |f.data| == DATA_LEN
    ensures LoadTx(p, f, false).out == p.out
  {
  }

  lemma WaitingSendable(d: Core)
    requires Waiting(d)
    ensures CanStartTx(d.phy, d.demand.pending.value.frame) && WellFormed(d.phy) && !d.control.active
    ensures d.control.requested == 0
  {
  }

  lemma StillBusy(p: Phy, f: Frame, t: nat)
    requires SendingAt(p, f, t) && t <= 4
    ensures p.state.Tx? && (Sound(p) ==> p.busy)
  {
  }

  /**
   A collision on an idle line, with a gap of `g` ticks asked for: twelve dominant ticks, release
   in the thirteenth, a quiet line for `g` ticks, and then the first half-bit of the same frame.
   */
  lemma RecoveryTiming(c: Core, r: Request, g: nat, k: nat)
    requires Breaking(c, r, 0) && 5 <= g <= 0xFF && r.restartGate == RestartGateFor(g) && Dominant0(r.frame)
    requires 1 <= k <= 13 + g
    ensures EchoAfter(c, k).phy.out == (12 < k < 13 + g)
    ensures k == 13 + g ==> SendingAt(EchoAfter(c, k).phy, r.frame, 4)
    ensures k == 13 + g ==> EchoAfter(c, 14).ledger.restarted[r.tag] == c.ledger.restarted[r.tag] + 1
  {
    hide IsrTick, Breaking;
    BreakingRests(c, r, 0);
    if k <= 13 {
      BreakRuns(c, r, k);
      BreakOut(EchoAfter(c, k), r, k);
    } else if k <= 13 + r.restartGate {
      GateRuns(c, r, k);
    } else {
      RestartRuns(c, r, k - 13 - r.restartGate);
      FirstEdge(EchoAfter(c, k).phy, r.frame, k - 13 - r.restartGate);
      GateRuns(c, r, 14);
    }
  }

  /** The frame starts with a dominant half-bit, as every start bit does. */
  predicate Dominant0(f: Frame) {
    |f.data| == DATA_LEN && Dominant(f.data, 0)
  }

  lemma BreakOut(c: Core, r: Request, k: nat)
    requires Breaking(c, r, k) && k >= 1
    ensures c.phy.out == (k == 13)
  {
  }

  lemma FirstEdge(p: Phy, f: Frame, t: nat)
    requires SendingAt(p, f, t) && Dominant0(f) && 1 <= t <= 4
    ensures p.out == (t < 4)
  {
  }

  /** Below five ticks there is no restart: the gate is zero and the collision is reported. */
  lemma ShortGapIsReported(c: Core, r: Request, g: nat)
    requires Breaking(c, r, 0) && r.restartGate == RestartGateFor(g)
    ensures g < 5 <==> r.restartGate == 0
    ensures g < 5 ==> var e := EchoAfter(c, 14);
                      e.demand.pending.None? && r.tag in e.ledger.collided && e.ledger.restarted == c.ledger.restarted
  {
    hide IsrTick, Breaking;
    BreakingRests(c, r, 0);
    if g < 5 {
      BreakRuns(c, r, 13);
      BreakEndsReported(EchoAfter(c, 13), r);
      BreakKeepsCount(c, r, 13);
    }
  }

  // ---- How a break comes about ----

  /** A collision seen by the transmitter starts a break of its request. */
  lemma CollisionStartsBreak(c: Core, r: Request, high: bool)
    requires Rest(c) && ForwardOnWire(c) && c.demand.pending == Some(r) && c.control.requested == 0 && !c.control.active
    requires c.staged.None? && c.phy.state.Tx? && Tick(c.phy, high).state.CollisionTx?
    ensures Ready(c) && Breaking(IsrTick(c, high, None), r, 0)
  {
    hide IsrTick, HeldOk, AllSendable;
    SendingTick(c.phy, high);
    CollisionSlot(c.phy, high);
    BusyTick(c, high, None);
  }

  lemma CollisionSlot(p: Phy, high: bool)
    requires Sound(p) && p.state.Tx? && Tick(p, high).state.CollisionTx?
    ensures Tick(p, high).tx.slot == 0
  {
    hide ReplayLow, Dominant;
  }

  /** A frame being sent undisturbed, its request in the pending slot. */
  predicate Sending(c: Core, r: Request, t: nat) {
    && Rest(c) && ForwardOnWire(c) && c.demand.pending == Some(r) && c.control.requested == 0 && !c.control.active
    && c.staged.None? && SendingAt(c.phy, r.frame, t)
  }

  lemma SendingCoreStep(d: Core, r: Request, t: nat)
    requires Sending(d, r, t) && t < 4 * r.frame.length
    ensures Ready(d) && Sending(IsrTick(d, d.phy.out, None), r, t + 1)
  {
    hide IsrTick, Tick;
    SendingStep(d.phy, r.frame, t);
    SendingTick(d.phy, d.phy.out);
    BusyTick(d, d.phy.out, None);
  }

  lemma {:induction false} SendingRuns(c: Core, r: Request, k: nat)
    requires Sending(c, r, 1) && 1 + k <= 4 * r.frame.length
    ensures Sending(EchoAfter(c, k), r, 1 + k)
    decreases k
  {
    hide IsrTick, SendingAt, Sound, HeldOk;
    if k > 0 {
      SendingRuns(c, r, k - 1);
      SendingCoreStep(EchoAfter(c, k - 1), r, k);
    }
  }

  /** From power-up: one request, its first two half-bits, and a line pulled low under the second. */
  lemma BreakIsReachable(r: Request)
    requires Sendable(r.frame) && r.frame.length > BACKWARD_FRAME_HALF_BITS && r.minIdle == 0
    requires Dominant(r.frame.data, 0) && !Dominant(r.frame.data, 1)
    ensures var sent := r.(tag := 0, batched := false);
            && Rest(NewCore()) && Rest(SubmitTx(NewCore(), r).0) && Ready(SubmitTx(NewCore(), r).0)
            && var armed := IsrTick(SubmitTx(NewCore(), r).0, true, None);
            && Rest(armed) && Ready(EchoAfter(armed, 8))
            && Breaking(IsrTick(EchoAfter(armed, 8), false, None), sent, 0)
  {
    hide IsrTick, Dominant;
    NewCoreRests();
    var c := SubmitTx(NewCore(), r).0;
    var sent := r.(tag := 0, batched := false);
    StepRests(NewCore(), Submit(r));
    FreeArms(c);
    LoadedSends(c.phy, r.frame, false);
    LoadKeepsOut(c.phy, r.frame);
    SendingStep(LoadTx(c.phy, r.frame, false), r.frame, 0);
    var armed := IsrTick(c, true, None);
    assert Sending(armed, sent, 1);
    SendingRuns(armed, sent, 8);
    var d := EchoAfter(armed, 8);
    RestIsReady(d);
    LowUnderRecessive(d.phy, r.frame);
    CollisionStartsBreak(d, sent, false);
  }

  lemma LowUnderRecessive(p: Phy, f: Frame)
    requires SendingAt(p, f, 9) && f.length > BACKWARD_FRAME_HALF_BITS && p.policy.Auto? && !Dominant(f.data, 1)
    ensures p.state.Tx? && Tick(p, false).state.CollisionTx?
  {
    hide Dominant;
  }
}
