/**
 The interrupt core as the object it is (isr.rs): its methods take the source's steps in the
 source's order and bring the fields to what the functions of `Isr` say.
 */
module IsrObject {
  import opened Wrappers
  import opened HalfBits
  import opened Fsm
  import opened Manchester
  import opened PhaseSearch
  import opened RxDecode
  import opened BitbangPhy
  import opened Isr
  import opened IsrInvariant

  class PhyIsrCore {
    const phy: DaliBitbangPhy
    var demand: Demand
    var control: Control
    var session: Session
    var clock: Clock
    var staged: Option<Staged>
    var sniffer: Sniffer
    var outbox: Outbox
    var tally: Tally
    // Remembered for the properties; nothing is decided by them.
    var ledger: Ledger
    var windows: Windows

    ghost function View(): Core
      reads this, phy, phy.rx, phy.rx.data, phy.tx
    {
      Core(phy.View(), demand, ledger, control, session, windows, clock, staged, sniffer, outbox, tally)
    }

    ghost predicate Valid()
      reads this, phy, phy.rx, phy.rx.data, phy.tx
    {
      phy.Valid() && Lasting(View())
    }

    constructor ()
      ensures fresh(phy) && fresh(phy.rx) && fresh(phy.rx.data) && fresh(phy.tx)
      ensures Valid() && View() == NewCore()
    {
      phy := new DaliBitbangPhy();
      var c := NewCore();
      NewLasts();
      demand, control, session, clock, staged := c.demand, c.control, c.session, c.clock, c.staged;
      sniffer, outbox, tally, ledger, windows := c.sniffer, c.outbox, c.tally, c.ledger, c.windows;
    }

    // ---- Small pieces ----

    method PushSessionEventFor(exchange: nat, event: SessionEvent)
      modifies this`outbox
      ensures outbox == PushEvent(old(outbox), exchange, event)
    {
      outbox := outbox.(log := outbox.log + [(exchange, event)]);
      if |outbox.ring| + 1 < SESSION_RING_CAP {
        outbox := outbox.(ring := outbox.ring + [(exchange, event)]);
      } else {
        outbox := outbox.(dropped := outbox.dropped + 1);
      }
    }

    method PushToSnifferRing(ev: RxEvent)
      modifies this`sniffer
      ensures sniffer == PushRing(old(sniffer), ev)
    {
      sniffer := sniffer.(pushed := sniffer.pushed + [ev]);
      if |sniffer.ring| + 1 < RX_RING_CAP {
        sniffer := sniffer.(ring := sniffer.ring + [ev]);
      } else {
        sniffer := sniffer.(dropped := sniffer.dropped + 1);
      }
    }

    method DrainQueue()
      modifies this`demand
      ensures demand == old(demand).(queue := [])
    {
      while demand.queue != []
        invariant demand == old(demand).(queue := demand.queue)
        decreases |demand.queue|
      {
        demand := demand.(queue := demand.queue[1..]);
      }
    }

    // ---- Cancellation ----

    method ApplyRequestedCancel()
      modifies this
      ensures View() == Isr.ApplyRequestedCancel(old(View()))
    {
      hide Tags;
      var raw := control.requested;
      if raw == 0 {
        return;
      }
      var active := phy.txBusy && !session.isAnswer && session.activeEpoch == raw;
      ledger := ledger.(cancelled := ledger.cancelled
                        + (TagOf(demand.cell) + Tags(demand.queue) + (if active then multiset{} else TagOf(demand.pending))));
      ForgetRequests(active);
      ForgetSession(raw);
      control := Control(0, raw, active);
    }

    method ForgetRequests(keepPending: bool)
      modifies this`demand
      ensures demand == Demand(None, [], if keepPending then old(demand).pending else None, old(demand).batchAborted)
    {
      if !keepPending {
        demand := demand.(pending := None);
      }
      DrainQueue();
      demand := demand.(cell := None);
    }

    method ForgetSession(exchange: nat)
      modifies this`session
      ensures var s := if old(session).activeEpoch == exchange then old(session).(expects := false) else old(session);
              session == if s.window == exchange then s.(window := 0, rxStarted := 0) else s
    {
      if session.activeEpoch == exchange {
        session := session.(expects := false);
      }
      if session.window == exchange {
        session := session.(window := 0, rxStarted := 0);
      }
    }

    // ---- Arming an answer ----

    method LineUnderAnswer() returns (line: LineUnderAnswer)
      ensures line == LineUnder(View())
    {
      if phy.lowRunTicks >= LINE_HELD_TICKS {
        return LineBusy;
      }
      match phy.busState {
        case Idle => return if phy.rxDebounce != 0 then LineBackward else LineIdle;
        case Rx => return if ReceptionBeganInTheBackwardWindow(clock) then LineBackward else LineBusy;
        case _ => return LineBusy;
      }
    }

    method FireStaged(since: nat, late: bool, overBackward: bool)
      requires phy.Valid() && staged.Some? && |staged.value.frame.data| == DATA_LEN
      modifies this, phy, phy.rx, phy.tx
      ensures phy.Valid() && View() == FireStagedAnswer(old(View()), since, late, overBackward)
    {
      var s := staged.value;
      staged := None;
      if late {
        tally := tally.(late := tally.late + 1);
      }
      session := session.(isAnswer := true, expects := false);
      var started := phy.StartAnswer(s.frame);
      if !started {
        session := session.(isAnswer := false);
        tally := tally.(rejected := tally.rejected + 1);
      } else {
        if overBackward {
          tally := tally.(overBackward := tally.overBackward + 1);
        }
        tally := tally.(arms := tally.arms + [NoteOf(s, clock, since)]);
      }
    }

    method TryArmAnswer() returns (tried: TryArmAnswer)
      requires phy.Valid() && StagedOk(staged)
      modifies this, phy, phy.rx, phy.tx
      ensures phy.Valid() && (View(), tried) == TryArm(old(View()))
    {
      hide FireStagedAnswer, LineUnder;
      if staged.None? {
        return NotStaged;
      }
      if staged.value.epoch != clock.busEpoch {
        staged := None;
        tally := tally.(stale := tally.stale + 1);
        return NotStaged;
      }
      var since := TicksSinceForwardEdge(clock);
      match GateAt(since) {
        case Hold => return HeldBack;
        case Expired =>
          staged := None;
          tally := tally.(expired := tally.expired + 1);
          return NotStaged;
        case Arm(late) =>
          var line := LineUnderAnswer();
          match line {
            case LineBusy => return HeldBack;
            case LineIdle => FireStaged(since, late, false);
            case LineBackward => FireStaged(since, late, true);
          }
          return Armed;
      }
    }

    // ---- Arming a forward frame ----

    method NextRequest() returns (r: Option<Request>)
      modifies this`demand
      ensures old(demand).pending.None? ==> demand.(pending := r) == TakeUp(old(demand)) && demand.pending.None?
    {
      if demand.queue != [] {
        r := Some(demand.queue[0]);
        demand := demand.(queue := demand.queue[1..]);
        return;
      }
      r := demand.cell;
      demand := demand.(cell := None);
    }

    method TakeUpRequest()
      modifies this`demand
      ensures demand == TakeUp(old(demand)) && (FramesFit(old(demand)) ==> FramesFit(demand))
    {
      if demand.pending.None? {
        var next := NextRequest();
        demand := demand.(pending := next);
      }
    }

    method ArmPendingForward()
      requires phy.Valid() && FramesFit(demand)
      modifies this, phy, phy.rx, phy.tx
      ensures phy.Valid() && View() == ArmForward(old(View()))
    {
      hide TakeUp, StartTaken;
      TakeUpRequest();
      if demand.pending.None? || phy.idleCount < demand.pending.value.minIdle {
        return;
      }
      StartPending();
    }

    method StartPending()
      requires phy.Valid() && demand.pending.Some? && |demand.pending.value.frame.data| == DATA_LEN
      modifies this, phy, phy.rx, phy.tx
      ensures phy.Valid() && View() == StartTaken(old(View()))
    {
      hide LoadTx, PushEvent;
      var r := demand.pending.value;
      session := session.(activeEpoch := r.exchange, expects := r.expects);
      var started := phy.StartTx(r.frame);
      if started {
        clock := clock.(busEpoch := (clock.busEpoch + 1) % 0x100, sent := clock.sent + 1);
        ledger := Arming(ledger, r);
      } else {
        RejectPending(r);
      }
    }

    method RejectPending(r: Request)
      modifies this`demand, this`session, this`ledger, this`outbox
      ensures demand == old(demand).(pending := None) && session == old(session).(expects := false)
      ensures ledger == old(ledger).(rejected := old(ledger).rejected + multiset{r.tag})
      ensures outbox == PushEvent(old(outbox), old(session).activeEpoch, TxRejected)
    {
      demand := demand.(pending := None);
      session := session.(expects := false);
      ledger := ledger.(rejected := ledger.rejected + multiset{r.tag});
      PushSessionEventFor(session.activeEpoch, TxRejected);
    }

    method ArmPendingTx()
      requires phy.Valid() && Ready(View())
      modifies this, phy, phy.rx, phy.tx
      ensures phy.Valid() && View() == ArmPending(old(View()))
    {
      hide Isr.ApplyRequestedCancel, TryArm, ArmForward;
      ApplyRequestedCancel();
      if phy.txBusy {
        return;
      }
      var tried := TryArmAnswer();
      if !tried.NotStaged? || session.window != 0 {
        return;
      }
      if !phy.busState.Idle? || phy.rxDebounce != 0 {
        return;
      }
      ArmPendingForward();
    }

    // ---- The end of a transmission ----

    method AbortBatchTail()
      modifies this
      ensures View() == Isr.AbortBatchTail(old(View()))
    {
      hide Tags;
      var held := demand.pending;
      var queued := demand.queue != [];
      ledger := Closing(ledger, held, Voided).(dropped := ledger.dropped + Tags(demand.queue));
      demand := demand.(pending := None);
      DrainQueue();
      if held.Some? {
        PushSessionEventFor(held.value.exchange, TxVoided);
      }
      if queued || (held.Some? && held.value.batched) {
        demand := demand.(batchAborted := true);
      }
    }

    method ReportFrameSent()
      modifies this
      ensures View() == ReportSent(old(View()))
    {
      ledger := Closing(ledger, demand.pending, Delivered);
      demand := demand.(pending := None);
      var expects := session.expects;
      session := session.(expects := false);
      if expects {
        session := session.(window := session.activeEpoch);
        windows := windows.(openings := windows.openings + [session.activeEpoch]);
      }
      PushSessionEventFor(session.activeEpoch, TxComplete(phy.tx.preIdle));
    }

    method ReportCollision()
      modifies this
      ensures View() == Isr.ReportCollision(old(View()))
    {
      hide Isr.AbortBatchTail;
      ledger := Closing(ledger, demand.pending, Collided);
      demand := demand.(pending := None);
      session := session.(expects := false, window := 0);
      AbortBatchTail();
      PushSessionEventFor(session.activeEpoch, TxCollision);
    }

    method RestartAfterBreak() returns (restarted: bool)
      modifies this
      ensures restarted == CanRestart(old(demand))
      ensures View() == if restarted then Restart(old(View())) else old(View())
    {
      if demand.pending.None? {
        return false;
      }
      var r := demand.pending.value;
      if r.restartGate == 0 {
        return false;
      }
      demand := demand.(pending := Some(r.(minIdle := r.restartGate, restartGate := 0)));
      ledger := ledger.(restarted := ledger.restarted + multiset{r.tag});
      return true;
    }

    method ReportCollisionOrRestart()
      requires phy.Valid()
      modifies this, phy.tx
      ensures phy.Valid() && View() == Isr.ReportCollisionOrRestart(old(View()))
    {
      hide Isr.ReportCollision, Restart;
      var idle := phy.tx.idleAfterBreak;
      phy.tx.idleAfterBreak := false;
      if idle {
        var restarted := RestartAfterBreak();
        if restarted {
          return;
        }
      }
      ReportCollision();
    }

    method EndCancelled(poll: TxPoll)
      modifies this
      ensures View() == FinishCancelled(old(View()), poll)
    {
      hide StepBack, TagOf;
      control := control.(active := false);
      if poll.Yielded? {
        clock := StepBack(clock);
      }
      ledger := ledger.(cancelled := ledger.cancelled + TagOf(demand.pending));
      demand := demand.(pending := None);
      session := session.(expects := false, window := 0, rxStarted := 0);
    }

    method ReportForwardCompletion(poll: TxPoll)
      requires phy.Valid()
      modifies this, phy.tx
      ensures phy.Valid() && View() == ReportForward(old(View()), poll)
    {
      hide ReportSent, Isr.ReportCollisionOrRestart, FinishCancelled;
      if control.active {
        EndCancelled(poll);
        return;
      }
      match poll {
        case Sent => ReportFrameSent();
        case Collision => ReportCollisionOrRestart();
        case Yielded =>
          session := session.(expects := false);
          clock := StepBack(clock);
        case Transmitting =>
      }
    }

    method ReportTxCompletion()
      requires phy.Valid()
      modifies this, phy.tx
      ensures phy.Valid() && View() == ReportCompletion(old(View()))
    {
      hide ReportForward, PollTx;
      var poll := phy.PollTxState();
      if session.isAnswer {
        session := session.(isAnswer := false);
        if poll.Collision? {
          tally := tally.(collided := tally.collided + 1);
        } else if poll.Yielded? {
          tally := tally.(stale := tally.stale + 1);
        } else {
          tally := tally.(sent := tally.sent + 1);
        }
        return;
      }
      ReportForwardCompletion(poll);
    }

    // ---- Captures ----

    method StepHeldCapture(answer: Option<u8>)
      requires HeldOk(sniffer)
      modifies this
      ensures View() == StepHeld(old(View()), answer)
    {
      hide SearchStep, EncodedFrame, WindowOf, PushRing;
      if sniffer.held.None? {
        return;
      }
      var h := sniffer.held.value;
      var window := OfCapture(h.ev.capture.samples, h.ev.capture.sampleCount);
      var search := new BestPhaseSearch.Resume(h.search);
      var outcome := search.Step(window);
      if outcome.Searching? {
        sniffer := sniffer.(held := Some(h.(search := Search(search.preferred, search.step, search.best))));
        return;
      }
      sniffer := sniffer.(held := None);
      var found := outcome.found;
      if found.Some? && found.value.bitLen == FORWARD24_BITS {
        if answer.Some? && staged.None? {
          staged := Some(Staged(h.ev.epoch, EncodedFrame(answer.value, BACKWARD_DATA_BITS), h.captured, h.sent, h.edge));
        }
      }
      PushToSnifferRing(h.ev.(decode := Decoded(found)));
    }

    method PushSnifferCapture(ev: RxEvent)
      modifies this
      ensures View() == PushSniffer(old(View()), ev)
    {
      hide PushRing;
      if sniffer.held.Some? {
        var was := sniffer.held.value;
        sniffer := sniffer.(held := None, overrun := sniffer.overrun + 1);
        PushToSnifferRing(was.ev);
      }
      var e := ev.(sniffSeq := sniffer.seqNo + 1);
      sniffer := sniffer.(seqNo := sniffer.seqNo + 1);
      if !IsForward24Length(ev.capture.sampleCount) {
        PushToSnifferRing(e);
        return;
      }
      sniffer := sniffer.(held := Some(NewlyHeld(e, clock)));
    }

    method CloseWindow(event: SessionEvent) returns (open: bool)
      modifies this
      ensures open == (old(session).window != 0)
      ensures View() == CloseWindowWith(old(View()), event)
    {
      var exchange := session.window;
      session := session.(window := 0, rxStarted := 0);
      open := exchange != 0;
      if open {
        PushSessionEventFor(exchange, event);
        windows := windows.(answered := windows.answered + [(|windows.openings|, exchange)]);
      }
    }

    method NoteForward()
      modifies this`clock
      ensures View() == NoteForwardCapture(old(View()))
    {
      clock := clock.(edge := clock.now - phy.idleCount);
      clock := clock.(busEpoch := (clock.busEpoch + 1) % 0x100);
      clock := clock.(captured := clock.captured + 1, edges := clock.edges + [clock.edge]);
    }

    method DrainCompletedRx()
      requires phy.Valid()
      modifies this, phy.rx
      ensures phy.Valid() && View() == Isr.DrainCompletedRx(old(View()))
    {
      hide CloseWindowWith, PushSniffer, Isr.AbortBatchTail, TakeCompleted, NoteForwardCapture;
      var taken := phy.TakeCompletedRx();
      if taken.None? {
        NothingTaken(old(phy.View()));
        return;
      }
      var c := taken.value;
      match LengthClass(c.sampleCount) {
        case Forward =>
          NoteForward();
          var ev := RxEvent(c, clock.busEpoch, clock.now, 0, NotDecoded);
          AbortBatchTail();
          var _ := CloseWindow(ForeignForward(c.preIdle, c.sampleCount));
          PushSnifferCapture(ev);
        case Backward =>
          var ev := RxEvent(c, clock.busEpoch, clock.now, 0, NotDecoded);
          var open := CloseWindow(RxComplete(ev));
          if !open {
            PushSnifferCapture(ev);
          }
      }
    }

    // ---- The tick ----

    method PublishTickState()
      modifies this
      ensures View() == Publish(old(View()))
    {
      clock := clock.(now := clock.now + 1);
      if session.window != 0 && phy.rx.state.Receiving? {
        session := session.(rxStarted := 1 + phy.rx.preIdle);
      }
    }

    method SendingLastHalfBit() returns (at: bool)
      ensures at == AtLastHalfBit(View())
    {
      at := phy.txBusy && !session.isAnswer && phy.busState.Tx? && phy.tx.count >= phy.tx.frame.length;
    }

    method TickPhy(high: bool)
      requires phy.Valid()
      modifies this`clock, phy, phy.rx, phy.rx.data, phy.tx
      ensures phy.Valid() && View() == NoteWire(old(View()).(phy := Fsm.Tick(old(View()).phy, high)), high)
    {
      hide Fsm.Tick;
      phy.Tick(high);
      clock := clock.(wire := clock.wire + [Instant(high, phy.out)]);
    }

    method CountDriven(was: bool)
      modifies this`ledger
      ensures View() == NoteDriven(old(View()), was)
    {
      var at := SendingLastHalfBit();
      if at && !was {
        ledger := ledger.(driven := ledger.driven + TagOf(demand.pending));
      }
    }

    method SampleLine(high: bool, before: RxState)
      requires phy.Valid()
      modifies this, phy, phy.rx, phy.rx.data, phy.tx
      ensures phy.Valid() && View() == Sample(old(View()), high, before)
    {
      hide Fsm.Tick, Publish, NoteDriven, NoteWire, AtLastHalfBit;
      var was := SendingLastHalfBit();
      TickPhy(high);
      CountDriven(was);
      PublishTickState();
      if !before.Receiving? && phy.rx.state.Receiving? {
        clock := clock.(rxStart := clock.now);
      }
    }

    method Tick(high: bool, answer: Option<u8>)
      requires Valid()
      modifies this, phy, phy.rx, phy.rx.data, phy.tx
      ensures Ready(old(View())) && View() == IsrTick(old(View()), high, answer) && Valid()
    {
      hide ArmPending, Sample, ReportCompletion, StepHeld, Isr.DrainCompletedRx, Lasting;
      StepLasts(View(), IsrBase.TickWith(high, answer));
      var rxBefore := phy.rx.state;
      ArmPendingTx();
      var wasBusy := phy.txBusy;
      SampleLine(high, rxBefore);
      if wasBusy && !phy.txBusy {
        ReportTxCompletion();
      }
      StepHeldCapture(answer);
      DrainCompletedRx();
    }

    // ---- Calls from tasks ----

    method SubmitTxFor(r: Request) returns (ok: bool)
      requires Valid()
      modifies this
      ensures (View(), ok) == SubmitTx(old(View()), r)
      ensures Valid()
    {
      hide Lasting;
      StepLasts(View(), IsrBase.Submit(r));
      if control.requested != 0 || !Sendable(r.frame) || demand.cell.Some? {
        return false;
      }
      var q := Stamped(ledger, r, false);
      demand := demand.(cell := Some(q));
      ledger := Issuing(ledger, q);
      return true;
    }

    method QueueTxFor(r: Request) returns (ok: bool)
      requires Valid()
      modifies this
      ensures (View(), ok) == QueueTx(old(View()), r)
      ensures Valid()
    {
      hide Lasting;
      StepLasts(View(), IsrBase.Queue(r));
      if control.requested != 0 || !Sendable(r.frame) || |demand.queue| + 1 >= TX_RING_CAP {
        return false;
      }
      var q := Stamped(ledger, r, true);
      demand := demand.(queue := demand.queue + [q]);
      ledger := Issuing(ledger, q);
      return true;
    }

    method CancelExchange(exchange: nat)
      requires Valid()
      modifies this
      ensures View() == Isr.CancelExchange(old(View()), exchange)
      ensures Valid()
    {
      hide Lasting;
      StepLasts(View(), IsrBase.Cancel(exchange));
      control := control.(requested := exchange);
    }

    method BeginExchange() returns (id: nat)
      requires Valid()
      modifies this
      ensures (View(), id) == Isr.BeginExchange(old(View()))
      ensures id != 0
      ensures Valid()
    {
      hide Lasting;
      StepLasts(View(), IsrBase.Begin);
      id := (session.exchangeEpoch + 1) % EXCHANGE_LIMIT;
      if id == 0 {
        id := 1;
      }
      session := session.(exchangeEpoch := id);
    }

    method CloseBackwardWindow() returns (started: Option<nat>)
      requires Valid()
      modifies this
      ensures (View(), started) == Isr.CloseBackwardWindow(old(View()))
      ensures Valid()
    {
      hide Lasting;
      StepLasts(View(), IsrBase.CloseWindow);
      if session.window != session.exchangeEpoch {
        return None;
      }
      started := if session.rxStarted == 0 then None else Some(session.rxStarted - 1);
      session := session.(window := 0, rxStarted := 0);
    }

    method PopSessionEventFor(exchange: nat) returns (event: Option<SessionEvent>)
      requires Valid()
      modifies this
      ensures (View(), event) == Isr.PopSessionEventFor(old(View()), exchange)
      ensures Valid()
    {
      hide Lasting;
      StepLasts(View(), IsrBase.PopEvent(exchange));
      while outbox.ring != []
        invariant View() == old(View()).(outbox := outbox)
        invariant Isr.PopSessionEventFor(View(), exchange) == Isr.PopSessionEventFor(old(View()), exchange)
        decreases |outbox.ring|
      {
        var (stamp, e) := outbox.ring[0];
        outbox := outbox.(ring := outbox.ring[1..], taken := outbox.taken + 1);
        if stamp == exchange {
          return Some(e);
        }
      }
      return None;
    }

    method PopRx() returns (ev: Option<RxEvent>)
      requires Valid()
      modifies this
      ensures (View(), ev) == Isr.PopRx(old(View()))
      ensures Valid()
    {
      hide Lasting;
      StepLasts(View(), IsrBase.PopCapture);
      if sniffer.ring == [] {
        return None;
      }
      ev := Some(sniffer.ring[0]);
      sniffer := sniffer.(ring := sniffer.ring[1..]);
    }

    method TakeBatchAborted() returns (aborted: bool)
      requires Valid()
      modifies this
      ensures (View(), aborted) == Isr.TakeBatchAborted(old(View()))
      ensures Valid()
    {
      hide Lasting;
      StepLasts(View(), IsrBase.TakeAborted);
      aborted := demand.batchAborted;
      demand := demand.(batchAborted := false);
    }
  }

  lemma NothingTaken(p: Phy)
    ensures TakeCompleted(p).1.None? ==> TakeCompleted(p).0 == p
  {
  }
}
