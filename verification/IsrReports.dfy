/**
 Runs without cancellation: a request is driven to its last half-bit exactly when it completes, as
 many events are pushed as requests and windows came to an end, and requests leave the queue
 unsent only with the abort flag up (isr.rs).
 */
module IsrReports {
  import opened Wrappers
  import opened Fsm
  import opened RxDecode
  import opened PhySteps
  import opened Isr
  import opened IsrBase
  import opened IsrLedger

  predicate Calm(c: Core) {
    c.control.requested == 0 && !c.control.active && c.ledger.cancelled == multiset{}
  }

  /** The requests driven to their last half-bit are the completed ones, and the one just now there. */
  predicate DrivenInv(c: Core) {
    c.ledger.driven == c.ledger.completed + if AtLastHalfBit(c) then TagOf(c.demand.pending) else multiset{}
  }

  /** One event for every request that came to an end on the line, and one for every window that got an answer. */
  predicate ReportsInv(c: Core) {
    |c.outbox.log| == |c.ledger.completed| + |c.ledger.collided| + |c.ledger.voided| + |c.ledger.rejected|
                       + |c.windows.answered|
  }

  predicate CalmInv(c: Core) {
    Calm(c) && (ForwardOnWire(c) ==> c.demand.pending.Some?) && DrivenInv(c) && ReportsInv(c)
  }

  // ---- The parts of a tick ----

  lemma TryArmCalm(c: Core)
    requires Rest(c) && !c.phy.busy && CalmInv(c)
    ensures CalmInv(TryArm(c).0)
  {
    hide Sound, HeldOk, AllSendable, LineUnder, GateAt, Sendable;
  }

  lemma ArmForwardCalm(c: Core)
    requires Rest(c) && c.phy.state.Idle? && c.session.window == 0 && !c.phy.busy && CalmInv(c)
    ensures Armable(c) && CalmInv(ArmForward(c))
  {
    hide ArmForward, HeldOk, AllSendable;
    ArmReady(c);
    ArmForwardBase(c);
    TakeUpSendable(c.demand);
  }

  lemma ArmCalm(c: Core)
    requires Rest(c) && CalmInv(c)
    ensures Armable(c) && CalmInv(ArmPending(c))
  {
    hide Rest, TryArm, ArmForward, CalmInv;
    ArmReady(c);
    CalmIsUncancelled(c);
    if !c.phy.busy {
      TryArmBase(c);
      TryArmCalm(c);
      var (a, tried) := TryArm(c);
      if tried.NotStaged? && a.session.window == 0 && a.phy.state.Idle? && !LineDebouncing(a.phy) {
        ArmReady(a);
        ArmForwardCalm(a);
      }
    }
  }

  lemma CalmIsUncancelled(c: Core)
    requires CalmInv(c)
    ensures ApplyRequestedCancel(c) == c
  {
  }

  /** A frame at its last half-bit leaves the wire in the next tick, as sent. */
  lemma LastHalfBitCompletes(a: Core, s: Core, high: bool)
    requires Rest(a) && ForwardOnWire(a) && s.phy == Tick(a.phy, high)
    ensures AtLastHalfBit(a) <==> !s.phy.busy && SentOut(a.phy, s.phy)
  {
    hide Tick, HeldOk, AllSendable;
    SendingTick(a.phy, high);
  }

  lemma SampleDrives(a: Core, high: bool, before: RxState)
    requires Rest(a)
    ensures var s := Sample(a, high, before);
            s.ledger.driven == a.ledger.driven + if AtLastHalfBit(s) && !AtLastHalfBit(a) then TagOf(a.demand.pending) else multiset{}
  {
    hide Tick;
  }

  lemma ForwardCalm(k: Core, poll: TxPoll)
    requires Calm(k) && !k.phy.busy && k.demand.pending.Some? && ReportsInv(k) && !poll.Transmitting?
    requires k.ledger.driven == k.ledger.completed + if poll.Sent? then TagOf(k.demand.pending) else multiset{}
    ensures CalmInv(ReportForward(k, poll))
  {
    hide Tags, Push;
  }

  lemma ConcludeCalm(a: Core, s: Core, high: bool, before: RxState)
    requires Rest(a) && CalmInv(a) && s == Sample(a, high, before) && Sampled(a, s) && s.phy == Tick(a.phy, high)
    ensures CalmInv(Conclude(s, a.phy.busy))
  {
    hide Tick, Sample, PollTx, ReportForward, HeldOk, AllSendable;
    SampleDrives(a, high, before);
    if a.phy.busy {
      SendingTick(a.phy, high);
      if ForwardOnWire(a) {
        LastHalfBitCompletes(a, s, high);
      }
      if !s.phy.busy {
        PollEnds(a, s);
        var (p, poll) := PollTx(s.phy);
        if !s.session.isAnswer {
          ForwardCalm(s.(phy := p), poll);
        }
      }
    } else {
      ListeningTick(a.phy, high);
    }
  }

  lemma CloseWindowCalm(c: Core, event: SessionEvent)
    requires CalmInv(c) && !c.phy.busy
    ensures CalmInv(CloseWindowWith(c, event))
  {
  }

  lemma AbortCalm(c: Core)
    requires CalmInv(c) && !c.phy.busy
    ensures CalmInv(AbortBatchTail(c))
  {
    hide Tags;
  }

  lemma DrainCalm(h: Core)
    requires CalmInv(h) && (h.phy.rx.state.Completed? ==> !h.phy.busy)
    ensures CalmInv(DrainCompletedRx(h))
  {
    hide AbortBatchTail, CloseWindowWith, CalmInv;
    if h.phy.rx.state.Completed? {
      var c := h.(phy := TakeCompleted(h.phy).0);
      var n := NoteForwardCapture(c);
      TakenCalm(h);
      var ev := RxEvent(h.phy.rx.last, c.clock.busEpoch, c.clock.now, 0, NotDecoded);
      var back := CloseWindowWith(c, RxComplete(ev));
      CloseWindowCalm(c, RxComplete(ev));
      SniffCalm(back, ev);
      AbortCalm(n);
      AbortPhy(n);
      var fev := RxEvent(h.phy.rx.last, n.clock.busEpoch, n.clock.now, 0, NotDecoded);
      var event := ForeignForward(fev.capture.preIdle, fev.capture.sampleCount);
      CloseWindowCalm(AbortBatchTail(n), event);
      SniffCalm(CloseWindowWith(AbortBatchTail(n), event), fev);
    }
  }

  lemma AbortPhy(c: Core)
    ensures AbortBatchTail(c).phy == c.phy
  {
  }

  lemma TakenCalm(h: Core)
    requires CalmInv(h) && !h.phy.busy
    ensures var c := h.(phy := TakeCompleted(h.phy).0); CalmInv(c) && CalmInv(NoteForwardCapture(c))
  {
  }

  lemma SniffCalm(c: Core, ev: RxEvent)
    requires CalmInv(c)
    ensures CalmInv(PushSniffer(c, ev))
  {
    hide PushRing;
  }

  lemma TickCalm(c: Core, high: bool, answer: Option<u8>)
    requires Rest(c) && CalmInv(c)
    ensures Ready(c) && CalmInv(IsrTick(c, high, answer))
  {
    hide ArmPending, Sample, Conclude, StepHeld, DrainCompletedRx, Tick, Rest, Base, CalmInv;
    var a, s, k, h := Stages(c, high, answer);
    ArmCalm(c);
    ConcludeCalm(a, s, high, c.phy.rx.state);
    StepHeldBooks(k, answer);
    SameCalm(k, h);
    DrainCalm(h);
  }

  lemma SameCalm(k: Core, h: Core)
    requires CalmInv(k) && h.demand == k.demand && h.ledger == k.ledger && h.outbox == k.outbox && h.control == k.control
    requires h.windows == k.windows && h.session == k.session && h.phy == k.phy
    ensures CalmInv(h)
  {
  }

  // ---- Runs ----

  predicate NoCancel(run: seq<Action>) {
    forall i | 0 <= i < |run| :: !run[i].Cancel?
  }

  lemma StepCalm(c: Core, a: Action)
    requires Rest(c) && CalmInv(c) && !a.Cancel?
    ensures Ready(c) && CalmInv(Step(c, a))
  {
    hide IsrTick, PopSessionEventFor;
    RestIsReady(c);
    match a
    case TickWith(high, answer) =>
      TickCalm(c, high, answer);
    case PopEvent(e) =>
      PopKeeps(c, e);
      PopPushes(c, e);
    case _ =>
  }

  lemma {:induction false} PopPushes(c: Core, exchange: nat)
    ensures PopSessionEventFor(c, exchange).0.outbox.log == c.outbox.log
    decreases |c.outbox.ring|
  {
    if c.outbox.ring != [] {
      var k := c.(outbox := c.outbox.(ring := c.outbox.ring[1..], taken := c.outbox.taken + 1));
      PopPushes(k, exchange);
    }
  }

  lemma {:induction false} RunCalm(c: Core, run: seq<Action>)
    requires Rest(c) && CalmInv(c) && NoCancel(run)
    ensures CalmInv(Exec(c, run))
    decreases |run|
  {
    hide Step, CalmInv, Rest;
    if run != [] {
      StepRests(c, run[0]);
      StepCalm(c, run[0]);
      RunCalm(Step(c, run[0]), run[1..]);
    }
  }

  // ---- Dropped requests ----

  /** Requests leave the queue unsent only while the abort flag goes up. */
  lemma DropsRaiseTheFlag(c: Core, high: bool, answer: Option<u8>)
    requires Rest(c)
    ensures Ready(c)
    ensures var r := IsrTick(c, high, answer); r.ledger.dropped == c.ledger.dropped || r.demand.batchAborted
  {
    hide ArmPending, Sample, Conclude, StepHeld, DrainCompletedRx, Tick, Rest, Base;
    var a, s, k, h := Stages(c, high, answer);
    ArmDropsNothing(c);
    ConcludeDrops(s, a.phy.busy);
    StepHeldBooks(k, answer);
    DrainDrops(h);
  }

  /** The abort flag goes up exactly when queued requests are dropped or a batched one is voided. */
  lemma AbortFlagIff(c: Core, high: bool, answer: Option<u8>)
    requires Rest(c)
    ensures Ready(c)
    ensures var p, r := ArmPending(c).demand.pending, IsrTick(c, high, answer);
            r.demand.batchAborted <==>
              || c.demand.batchAborted || r.ledger.dropped != c.ledger.dropped
              || (r.ledger.voided != c.ledger.voided && p.Some? && p.value.batched)
  {
    hide ArmPending, Sample, Conclude, StepHeld, DrainCompletedRx, Tick, Rest, Base;
    var a, s, k, h := Stages(c, high, answer);
    ArmDropsNothing(c);
    ConcludeFlags(a, s, high);
    StepHeldBooks(k, answer);
    DrainFlags(h);
  }

  lemma TagsOfSome(s: seq<Request>)
    ensures Tags(s) == multiset{} <==> s == []
  {
    if s != [] {
      assert s[0].tag in Tags(s);
    }
  }

  /** An end on the wire drops the queue, or leaves queue and flag alone. */
  lemma ConcludeFlags(a: Core, s: Core, high: bool)
    requires Rest(a) && Sampled(a, s) && s.phy == Tick(a.phy, high)
    ensures var k := Conclude(s, a.phy.busy);
            && (k.demand.batchAborted <==> a.demand.batchAborted || k.ledger.dropped != a.ledger.dropped)
            && k.ledger.voided == a.ledger.voided && (k.phy.rx.state.Completed? ==> k.demand == a.demand && k.ledger.dropped == a.ledger.dropped)
            && (!k.phy.rx.state.Completed? || !a.phy.busy)
  {
    hide Tick, Tags, HeldOk, AllSendable, Push;
    TagsOfSome(a.demand.queue);
    if a.phy.busy {
      SendingTick(a.phy, high);
    } else {
      ListeningTick(a.phy, high);
    }
  }

  lemma DrainFlags(h: Core)
    ensures var r, p := DrainCompletedRx(h), h.demand.pending;
            && (r.demand.batchAborted <==>
                  || h.demand.batchAborted || r.ledger.dropped != h.ledger.dropped
                  || (r.ledger.voided != h.ledger.voided && p.Some? && p.value.batched))
            && (!h.phy.rx.state.Completed? ==> r == h)
  {
    hide Tags, PushEvent, PushRing;
    TagsOfSome(h.demand.queue);
  }

  lemma ArmDropsNothing(c: Core)
    requires Rest(c)
    ensures Armable(c)
    ensures var a := ArmPending(c);
            && a.ledger.dropped == c.ledger.dropped && a.ledger.voided == c.ledger.voided
            && a.demand.batchAborted == c.demand.batchAborted
  {
    hide Rest, ApplyRequestedCancel, TryArm, ArmForward;
    ArmReady(c);
    CancelBase(c);
    CancelDropsNothing(c);
    var k := ApplyRequestedCancel(c);
    ArmReady(k);
    if !k.phy.busy {
      TryArmBase(k);
      TryArmBooks(k);
      var (a, tried) := TryArm(k);
      if tried.NotStaged? && a.session.window == 0 && a.phy.state.Idle? && !LineDebouncing(a.phy) {
        ArmForwardBase(a);
      }
    }
  }

  lemma CancelDropsNothing(c: Core)
    ensures var a := ApplyRequestedCancel(c);
            && a.ledger.dropped == c.ledger.dropped && a.ledger.voided == c.ledger.voided
            && a.demand.batchAborted == c.demand.batchAborted
  {
    hide Tags;
  }

  lemma ConcludeDrops(s: Core, wasBusy: bool)
    ensures var k := Conclude(s, wasBusy);
            k.demand.batchAborted || (k.ledger.dropped == s.ledger.dropped && !s.demand.batchAborted)
  {
    hide Push;
  }

  lemma DrainDrops(h: Core)
    ensures var r := DrainCompletedRx(h);
            r.demand.batchAborted || (r.ledger.dropped == h.ledger.dropped && !h.demand.batchAborted)
  {
    hide Push;
  }
}
