/** Backward windows: opened by a query's completion, closed by at most one event of their own exchange (isr.rs). */
module IsrWindows {
  import opened Wrappers
  import opened Fsm
  import opened RxDecode
  import opened PhySteps
  import opened Isr
  import opened IsrBase
  import opened IsrLedger
  import opened IsrReports

  /** Every event a window produced carries the exchange that opened it, and no window produced two. */
  predicate WindowInv(w: Windows, window: nat) {
    && (forall i | 0 <= i < |w.answered| ::
          0 < w.answered[i].0 <= |w.openings| && w.answered[i].1 == w.openings[w.answered[i].0 - 1])
    && (forall i, j | 0 <= i < j < |w.answered| :: w.answered[i].0 < w.answered[j].0)
    && (window != 0 ==>
          && w.openings != [] && window == w.openings[|w.openings| - 1]
          && forall i | 0 <= i < |w.answered| :: w.answered[i].0 < |w.openings|)
  }

  // ---- The events tasks read ----

  /** The two events a window can get. */
  predicate OfWindow(e: SessionEvent) {
    e.RxComplete? || e.ForeignForward?
  }

  /** The stamps of the events windows got, oldest first. */
  function WindowStamps(log: seq<(nat, SessionEvent)>): seq<nat> {
    if log == [] then []
    else
      var (stamp, event) := log[|log| - 1];
      WindowStamps(log[..|log| - 1]) + if OfWindow(event) then [stamp] else []
  }

  function Stamps(answered: seq<(nat, nat)>): (r: seq<nat>)
    ensures |r| == |answered|
  {
    seq(|answered|, i requires 0 <= i < |answered| => answered[i].1)
  }

  /** The exchanges whose frames were reported sent since a window last got an event. */
  function Unanswered(log: seq<(nat, SessionEvent)>): set<nat> {
    if log == [] then {}
    else
      var (stamp, event) := log[|log| - 1];
      var before := Unanswered(log[..|log| - 1]);
      if OfWindow(event) then {} else if event.TxComplete? then before + {stamp} else before
  }

  /** Before every window's event, and after the one before it, its exchange's frame was reported sent. */
  predicate InOrder(log: seq<(nat, SessionEvent)>) {
    log == [] ||
    (InOrder(log[..|log| - 1])
     && (OfWindow(log[|log| - 1].1) ==> log[|log| - 1].0 in Unanswered(log[..|log| - 1])))
  }

  predicate LogInv(o: Outbox, w: Windows, window: nat) {
    && WindowStamps(o.log) == Stamps(w.answered) && InOrder(o.log)
    && (window != 0 ==> window in Unanswered(o.log))
  }

  /** No window opened and none got an event. */
  predicate Aside(o: Outbox, o': Outbox) {
    && WindowStamps(o'.log) == WindowStamps(o.log) && Unanswered(o'.log) == Unanswered(o.log)
    && (InOrder(o.log) ==> InOrder(o'.log))
  }

  lemma Logged(o: Outbox, exchange: nat, event: SessionEvent)
    ensures var o' := PushEvent(o, exchange, event);
            && o'.log[..|o'.log| - 1] == o.log && |o'.log| > 0 && o'.log[|o'.log| - 1] == (exchange, event)
  {
  }

  lemma PushAside(o: Outbox, exchange: nat, event: SessionEvent)
    requires !OfWindow(event) && !event.TxComplete?
    ensures Aside(o, PushEvent(o, exchange, event))
  {
    hide PushEvent;
    Logged(o, exchange, event);
  }

  lemma PushSent(o: Outbox, exchange: nat, idle: nat)
    ensures var o' := PushEvent(o, exchange, TxComplete(idle));
            && WindowStamps(o'.log) == WindowStamps(o.log) && (InOrder(o.log) ==> InOrder(o'.log))
            && Unanswered(o'.log) == Unanswered(o.log) + {exchange}
  {
    hide PushEvent;
    Logged(o, exchange, TxComplete(idle));
  }

  lemma PushAnswer(o: Outbox, w: Windows, window: nat, event: SessionEvent)
    requires LogInv(o, w, window) && window != 0 && OfWindow(event)
    ensures LogInv(PushEvent(o, window, event), w.(answered := w.answered + [(|w.openings|, window)]), 0)
  {
    hide PushEvent;
    Logged(o, window, event);
    assert Stamps(w.answered + [(|w.openings|, window)]) == Stamps(w.answered) + [window];
  }

  predicate Windowed(c: Core) {
    WindowInv(c.windows, c.session.window) && LogInv(c.outbox, c.windows, c.session.window)
  }

  /** Closing a window without an event. */
  lemma Shut(w: Windows, window: nat)
    requires WindowInv(w, window)
    ensures WindowInv(w, 0)
  {
  }

  lemma OpenWindow(w: Windows, exchange: nat)
    requires WindowInv(w, 0)
    ensures WindowInv(w.(openings := w.openings + [exchange]), exchange)
  {
  }

  lemma AnswerWindow(w: Windows, window: nat)
    requires WindowInv(w, window) && window != 0
    ensures WindowInv(w.(answered := w.answered + [(|w.openings|, window)]), 0)
  {
    var v := w.(answered := w.answered + [(|w.openings|, window)]);
    forall i, j | 0 <= i < j < |v.answered| ensures v.answered[i].0 < v.answered[j].0 {
      assert v.answered[i] == w.answered[i];
    }
  }

  // ---- The parts of a tick ----

  lemma CancelWindows(c: Core)
    requires Windowed(c)
    ensures Windowed(ApplyRequestedCancel(c))
  {
    hide WindowInv, Tags, Unanswered, InOrder, WindowStamps;
    Shut(c.windows, c.session.window);
  }

  lemma ArmWindows(c: Core)
    requires Rest(c) && Windowed(c)
    ensures Armable(c) && Windowed(ArmPending(c))
  {
    hide WindowInv, ApplyRequestedCancel, ArmIdle, Unanswered, InOrder, WindowStamps;
    ArmReady(c);
    CancelWindows(c);
    var k := ApplyRequestedCancel(c);
    if !k.phy.busy {
      ArmIdleWindows(k);
    }
  }

  lemma ArmIdleWindows(k: Core)
    requires Armable(k)
    ensures var a := ArmIdle(k); a.windows == k.windows && a.session.window == k.session.window && Aside(k.outbox, a.outbox)
  {
    hide TryArm, ArmForward, Unanswered, InOrder, WindowStamps;
    TryArmAside(k);
    ArmForwardWindows(TryArm(k).0);
  }

  lemma TryArmAside(k: Core)
    requires Armable(k)
    ensures var a := TryArm(k).0;
            a.windows == k.windows && a.session.window == k.session.window && a.outbox == k.outbox && a.demand == k.demand
  {
    hide LineUnder, GateAt, LoadTx;
  }

  lemma ArmForwardWindows(c: Core)
    requires WellFormed(c.phy) && FramesFit(c.demand)
    ensures var a := ArmForward(c);
            a.windows == c.windows && a.session.window == c.session.window && Aside(c.outbox, a.outbox)
  {
    hide PushEvent, Unanswered, InOrder, WindowStamps, LoadTx;
    if TakeUp(c.demand).pending.Some? {
      PushAside(c.outbox, TakeUp(c.demand).pending.value.exchange, TxRejected);
    }
  }

  lemma ForwardWindows(k: Core, poll: TxPoll)
    requires Windowed(k) && k.session.window == 0
    ensures Windowed(ReportForward(k, poll))
  {
    hide WindowInv, Tags, PushEvent, Unanswered, InOrder, WindowStamps, ReportCollision;
    OpenWindow(k.windows, k.session.activeEpoch);
    PushSent(k.outbox, k.session.activeEpoch, k.phy.tx.preIdle);
    CollisionWindows(k.(phy := k.phy.(tx := k.phy.tx.(idleAfterBreak := false))));
  }

  lemma CollisionWindows(k: Core)
    ensures var r := ReportCollision(k); r.windows == k.windows && r.session.window == 0 && Aside(k.outbox, r.outbox)
  {
    hide Tags, PushEvent, Unanswered, InOrder, WindowStamps, AbortBatchTail;
    var c := k.(ledger := Closing(k.ledger, k.demand.pending, Collided),
                demand := k.demand.(pending := None),
                session := k.session.(expects := false, window := 0));
    AbortWindows(c);
    PushAside(AbortBatchTail(c).outbox, AbortBatchTail(c).session.activeEpoch, TxCollision);
  }

  lemma AbortWindows(c: Core)
    ensures var r := AbortBatchTail(c); r.windows == c.windows && r.session == c.session && Aside(c.outbox, r.outbox)
  {
    hide Tags, PushEvent, Unanswered, InOrder, WindowStamps;
    if c.demand.pending.Some? {
      PushAside(c.outbox, c.demand.pending.value.exchange, TxVoided);
    }
  }

  lemma ConcludeWindows(a: Core, s: Core, high: bool)
    requires Rest(a) && Windowed(a) && Sampled(a, s) && s.phy == Tick(a.phy, high)
    ensures Windowed(Conclude(s, a.phy.busy))
  {
    hide Tick, WindowInv, LogInv, PollTx, ReportForward, HeldOk, AllSendable, Sound;
    var (p, poll) := PollTx(s.phy);
    if a.phy.busy && !s.session.isAnswer {
      ForwardWindows(s.(phy := p), poll);
    }
  }

  lemma CloseWindowWindows(c: Core, event: SessionEvent)
    requires Windowed(c) && OfWindow(event)
    ensures Windowed(CloseWindowWith(c, event))
  {
    hide WindowInv, LogInv, PushEvent;
    if c.session.window != 0 {
      AnswerWindow(c.windows, c.session.window);
      PushAnswer(c.outbox, c.windows, c.session.window, event);
    }
  }

  lemma DrainWindows(h: Core)
    requires Windowed(h)
    ensures Windowed(DrainCompletedRx(h))
  {
    hide WindowInv, CloseWindowWith, AbortBatchTail, PushRing, Unanswered, InOrder, WindowStamps, NewlyHeld;
    if h.phy.rx.state.Completed? {
      var c := h.(phy := TakeCompleted(h.phy).0);
      var ev := RxEvent(h.phy.rx.last, c.clock.busEpoch, c.clock.now, 0, NotDecoded);
      CloseWindowWindows(c, RxComplete(ev));
      var n := NoteForwardCapture(c);
      var fev := RxEvent(h.phy.rx.last, n.clock.busEpoch, n.clock.now, 0, NotDecoded);
      AbortWindows(n);
      CloseWindowWindows(AbortBatchTail(n), ForeignForward(fev.capture.preIdle, fev.capture.sampleCount));
    }
  }

  lemma TickWindows(c: Core, high: bool, answer: Option<u8>)
    requires Rest(c) && Windowed(c)
    ensures Ready(c) && Windowed(IsrTick(c, high, answer))
  {
    hide ArmPending, Sample, Conclude, StepHeld, DrainCompletedRx, Tick, Rest, Base, WindowInv, LogInv;
    var a, s, k, h := Stages(c, high, answer);
    ArmWindows(c);
    ConcludeWindows(a, s, high);
    StepHeldBooks(k, answer);
    DrainWindows(h);
  }

  // ---- Runs ----

  lemma StepWindows(c: Core, a: Action)
    requires Rest(c) && Windowed(c)
    ensures Ready(c) && Windowed(Step(c, a))
  {
    hide IsrTick, PopSessionEventFor, WindowInv, Unanswered, InOrder, WindowStamps;
    RestIsReady(c);
    match a
    case TickWith(high, answer) =>
      TickWindows(c, high, answer);
    case PopEvent(e) =>
      PopKeeps(c, e);
      PopPushes(c, e);
    case CloseWindow =>
      Shut(c.windows, c.session.window);
    case _ =>
  }

  lemma {:induction false} RunWindows(c: Core, run: seq<Action>)
    requires Rest(c) && Windowed(c)
    ensures Windowed(Exec(c, run))
    decreases |run|
  {
    hide Step, Windowed, Rest;
    if run != [] {
      StepRests(c, run[0]);
      StepWindows(c, run[0]);
      RunWindows(Step(c, run[0]), run[1..]);
    }
  }

  /**
   From power-up on: no forward frame is on the wire under an open window, every window gets at most
   one event, and the window events pushed are those, in order, each stamped with the exchange that
   opened its window and preceded by the report that this exchange's frame was sent.
   */
  lemma WindowDiscipline(run: seq<Action>)
    ensures Rest(NewCore())
    ensures var c := Exec(NewCore(), run); Windowed(c) && (ForwardOnWire(c) ==> c.session.window == 0)
  {
    hide Exec;
    NewCoreRests();
    RunWindows(NewCore(), run);
  }

  // ---- Opening and arming ----

  /** A window opens only when a query has gone out whole, for the exchange of that query. */
  lemma WindowOpensOnQuery(c: Core, high: bool, answer: Option<u8>)
    requires Rest(c)
    ensures Ready(c)
    ensures var r := IsrTick(c, high, answer);
            r.windows.openings != c.windows.openings ==>
              && ForwardOnWire(c) && AtLastHalfBit(c) && c.session.expects
              && r.windows.openings == c.windows.openings + [c.session.activeEpoch]
              && (c.demand.pending.Some? ==> c.demand.pending.value.expects && c.demand.pending.value.exchange == c.session.activeEpoch)
  {
    hide ArmPending, Sample, Conclude, StepHeld, DrainCompletedRx, Tick;
    var a, s, k, h := Stages(c, high, answer);
    ArmOpensNothing(c);
    ConcludeOpens(a, s, high);
    StepHeldBooks(k, answer);
    DrainOpensNothing(h);
  }

  lemma ArmOpensNothing(c: Core)
    requires Rest(c)
    ensures Armable(c)
    ensures var a := ArmPending(c);
            && a.windows == c.windows
            && (AtLastHalfBit(a) ==> AtLastHalfBit(c) && a.session.activeEpoch == c.session.activeEpoch
                                     && (a.session.expects ==> c.session.expects))
  {
    hide LineUnder, GateAt, Push, HeldOk, AllSendable;
    ArmReady(c);
    var k := ApplyRequestedCancel(c);
    if !k.phy.busy {
      CancelBase(c);
      ArmIdleWindows(k);
      ArmedIsNew(k);
    }
  }

  /** What is armed now starts at its first half-bit. */
  lemma ArmedIsNew(k: Core)
    requires Rest(k) && !k.phy.busy
    ensures Armable(k) && !AtLastHalfBit(ArmIdle(k))
  {
    hide ArmForward, TryArm, HeldOk, AllSendable;
    ArmReady(k);
    TryArmBase(k);
    TryArmNotForward(k);
    var (a, tried) := TryArm(k);
    if tried.NotStaged? && a.session.window == 0 && a.phy.state.Idle? && !LineDebouncing(a.phy) {
      ArmReady(a);
      ArmForwardBase(a);
      TakeUpSendable(a.demand);
    }
  }

  lemma TryArmNotForward(k: Core)
    requires Armable(k) && !k.phy.busy
    ensures var a := TryArm(k).0; a.phy.busy ==> a.session.isAnswer
  {
    hide LineUnder, GateAt;
  }

  lemma ConcludeOpens(a: Core, s: Core, high: bool)
    requires Rest(a) && Sampled(a, s) && s.phy == Tick(a.phy, high)
    ensures var k := Conclude(s, a.phy.busy);
            k.windows.openings != a.windows.openings ==>
              AtLastHalfBit(a) && a.session.expects && k.windows.openings == a.windows.openings + [a.session.activeEpoch]
  {
    hide Tick, PollTx, HeldOk, AllSendable, Tags, Push;
    if a.phy.busy {
      SendingTick(a.phy, high);
      if !s.phy.busy {
        PollEnds(a, s);
        if ForwardOnWire(a) {
          LastHalfBitCompletes(a, s, high);
        }
      }
    }
  }

  lemma DrainOpensNothing(h: Core)
    ensures DrainCompletedRx(h).windows.openings == h.windows.openings
  {
    hide Tags, Push, PushRing;
  }

  /** A forward frame is armed only when no window is open and the line is idle. */
  lemma ArmsOutsideWindows(c: Core)
    requires Rest(c) && !c.phy.busy
    ensures Armable(c)
    ensures var a := ArmPending(c);
            a.phy.busy && !a.session.isAnswer ==>
              a.session.window == 0 && c.phy.state.Idle? && !LineDebouncing(c.phy) && a.staged.None?
  {
    hide Rest, TryArm, ArmForward, ApplyRequestedCancel;
    ArmReady(c);
    CancelBase(c);
    var k := ApplyRequestedCancel(c);
    ArmReady(k);
    TryArmBase(k);
    TryArmNotForward(k);
    var (a, tried) := TryArm(k);
    if tried.NotStaged? && a.session.window == 0 && a.phy.state.Idle? && !LineDebouncing(a.phy) {
      ArmReady(a);
      ArmForwardBase(a);
    }
  }
}
