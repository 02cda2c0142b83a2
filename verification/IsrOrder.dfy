/**
 Requests keep their order and their frames: batched ones go onto the wire in the order they were
 queued, and what goes out under a tag is what was accepted under it (isr.rs).
 */
module IsrOrder {
  import opened Wrappers
  import opened Fsm
  import opened RxDecode
  import opened PhySteps
  import opened Isr
  import opened IsrBase
  import opened IsrLedger

  // ---- Requests stay what they were ----

  /** A request restarted after a break has its gate for a waiting time. */
  function Again(r: Request): Request {
    r.(minIdle := r.restartGate, restartGate := 0)
  }

  /** The request is the one accepted under its tag, or that one restarted. */
  predicate Own(r: Request, issued: seq<Request>) {
    r.tag < |issued| && issued[r.tag].tag == r.tag && (r == issued[r.tag] || r == Again(issued[r.tag]))
  }

  predicate OwnDemand(d: Demand, issued: seq<Request>) {
    && (d.cell.Some? ==> Own(d.cell.value, issued)) && (d.pending.Some? ==> Own(d.pending.value, issued))
    && forall i | 0 <= i < |d.queue| :: Own(d.queue[i], issued)
  }

  lemma TakeUpOwn(d: Demand, issued: seq<Request>)
    ensures OwnDemand(d, issued) ==> OwnDemand(TakeUp(d), issued)
  {
  }

  lemma QueueOwn(d: Demand, issued: seq<Request>, r: Request)
    requires OwnDemand(d, issued) && Own(r, issued)
    ensures OwnDemand(d.(queue := d.queue + [r]), issued)
  {
  }

  // ---- The order ----

  /** Queued requests wait in the order of their tags, behind the one taken up. */
  predicate InLine(d: Demand) {
    && (d.cell.Some? ==> !d.cell.value.batched)
    && (forall i | 0 <= i < |d.queue| :: d.queue[i].batched)
    && (forall i, j | 0 <= i < j < |d.queue| :: d.queue[i].tag < d.queue[j].tag)
    && (d.pending.Some? && d.pending.value.batched ==> forall i | 0 <= i < |d.queue| :: d.pending.value.tag < d.queue[i].tag)
  }

  /** A batched request that was put on the wire came before those still waiting; it may still be taken up, to go out again. */
  predicate Before(r: Request, d: Demand) {
    r.batched ==>
      && (d.pending.Some? && d.pending.value.batched ==> r.tag <= d.pending.value.tag)
      && forall i | 0 <= i < |d.queue| :: r.tag < d.queue[i].tag
  }

  /** Batched requests went out in the order of their tags; a tag comes again only when its frame does. */
  predicate InTurn(armings: seq<Request>) {
    forall i, j | 0 <= i < j < |armings| && armings[i].batched && armings[j].batched :: armings[i].tag <= armings[j].tag
  }

  predicate Numbered(l: Ledger) {
    |l.issued| == l.nextTag && forall t | 0 <= t < |l.issued| :: l.issued[t].tag == t
  }

  predicate OrderInv(d: Demand, l: Ledger) {
    && Numbered(l) && OwnDemand(d, l.issued) && InLine(d) && InTurn(l.armings) && Tags(l.armings) == l.armed
    && forall i | 0 <= i < |l.armings| :: Own(l.armings[i], l.issued) && Before(l.armings[i], d)
  }

  /** The forward frame on the wire is that of the last request armed, and was preceded by the silence it asked for. */
  predicate LastArmed(c: Core) {
    ForwardOnWire(c) ==>
      && c.ledger.armings != []
      && var r := c.ledger.armings[|c.ledger.armings| - 1];
         c.phy.tx.frame == r.frame && c.phy.tx.preIdle >= r.minIdle
  }

  // ---- What only takes requests away ----

  predicate SameOrders(l: Ledger, k: Ledger) {
    k.nextTag == l.nextTag && k.issued == l.issued && k.armings == l.armings && k.armed == l.armed
  }

  predicate CanGoAgain(p: Option<Request>, q: Option<Request>) {
    p.Some? && p.value.restartGate != 0 && q == Some(Again(p.value))
  }

  predicate Lesser(d: Demand, e: Demand) {
    && (e.cell == d.cell || e.cell.None?) && (e.queue == d.queue || e.queue == [])
    && (e.pending == d.pending || e.pending.None? || CanGoAgain(d.pending, e.pending))
  }

  lemma OrderShrinks(d: Demand, l: Ledger, e: Demand, k: Ledger)
    requires OrderInv(d, l) && Lesser(d, e) && SameOrders(l, k)
    ensures OrderInv(e, k)
  {
    hide InTurn, Tags;
  }

  // ---- Arming ----

  lemma CancelOrder(c: Core)
    ensures var k := ApplyRequestedCancel(c); Lesser(c.demand, k.demand) && SameOrders(c.ledger, k.ledger)
  {
    hide Tags;
  }

  lemma TakeUpOrder(d: Demand, l: Ledger)
    requires OrderInv(d, l)
    ensures OrderInv(TakeUp(d), l)
  {
    hide InTurn, Numbered, Tags, Own;
    TakeUpOwn(d, l.issued);
  }

  lemma ArmingOrder(d: Demand, l: Ledger)
    requires OrderInv(d, l) && d.pending.Some?
    ensures OrderInv(d, Arming(l, d.pending.value))
  {
    hide Tags, Own;
    TagsSnoc(l.armings, d.pending.value);
  }

  lemma ArmForwardOrder(c: Core)
    requires Rest(c) && c.phy.state.Idle? && c.session.window == 0 && OrderInv(c.demand, c.ledger) && !c.phy.busy
    ensures Armable(c)
    ensures var r := ArmForward(c); OrderInv(r.demand, r.ledger) && LastArmed(r)
  {
    hide OrderInv, ArmForward, Rest;
    ArmReady(c);
    ArmForwardBase(c);
    TakeUpOrder(c.demand, c.ledger);
    var d := TakeUp(c.demand);
    if d.pending.Some? {
      ArmingOrder(d, c.ledger);
    }
  }

  lemma ArmPendingOrder(c: Core)
    requires Rest(c) && OrderInv(c.demand, c.ledger) && LastArmed(c)
    ensures Armable(c)
    ensures var a := ArmPending(c); OrderInv(a.demand, a.ledger) && LastArmed(a)
  {
    hide Rest, ApplyRequestedCancel, TryArm, ArmForward, OrderInv;
    ArmReady(c);
    CancelBase(c);
    CancelOrder(c);
    var k := ApplyRequestedCancel(c);
    CancelKeepsWire(c);
    OrderShrinks(c.demand, c.ledger, k.demand, k.ledger);
    ArmReady(k);
    if !k.phy.busy {
      TryArmBase(k);
      TryArmOrder(k);
      var (a, tried) := TryArm(k);
      if tried.NotStaged? && a.session.window == 0 && a.phy.state.Idle? && !LineDebouncing(a.phy) {
        ArmReady(a);
        ArmForwardOrder(a);
      }
    }
  }

  /** A request that was not queued is taken up only with nothing queued. */
  lemma QueueGoesFirst(c: Core)
    requires Rest(c) && InLine(c.demand)
    ensures Armable(c)
    ensures var d := ArmPending(c).demand;
            d.pending.Some? && !d.pending.value.batched && d.pending != c.demand.pending ==> d.queue == []
  {
    hide Rest, ApplyRequestedCancel, TryArm, ArmForward;
    ArmReady(c);
    CancelBase(c);
    CancelOrder(c);
    CancelRestartsNothing(c);
    var k := ApplyRequestedCancel(c);
    ArmReady(k);
    if !k.phy.busy {
      TryArmBase(k);
      TryArmOrder(k);
      var (a, tried) := TryArm(k);
      if tried.NotStaged? && a.session.window == 0 && a.phy.state.Idle? && !LineDebouncing(a.phy) {
        ArmForwardBase(a);
      }
    }
  }

  lemma CancelRestartsNothing(c: Core)
    ensures var d := ApplyRequestedCancel(c).demand; d.pending == c.demand.pending || d.pending.None?
    ensures var d := ApplyRequestedCancel(c).demand; d.pending.None? ==> c.demand.pending.None? || d.queue == []
  {
    hide Tags;
  }

  lemma CancelKeepsWire(c: Core)
    ensures var k := ApplyRequestedCancel(c); k.phy == c.phy && k.session.isAnswer == c.session.isAnswer
  {
    hide Tags;
  }

  lemma TryArmOrder(c: Core)
    requires Rest(c) && !c.phy.busy
    ensures var (a, tried) := TryArm(c);
            && a.demand == c.demand && a.ledger == c.ledger && LastArmed(a)
            && (tried.NotStaged? ==> !a.phy.busy)
  {
    hide HeldOk, AllSendable, ReceptionBeganInTheBackwardWindow;
  }

  // ---- The rest of the tick ----

  lemma ConcludeOrder(a: Core, s: Core, high: bool)
    requires Rest(a) && LastArmed(a) && Sampled(a, s) && s.phy == Tick(a.phy, high)
    ensures var k := Conclude(s, a.phy.busy); Lesser(s.demand, k.demand) && SameOrders(s.ledger, k.ledger) && LastArmed(k)
  {
    hide Tick, Tags, HeldOk, AllSendable, PollTx, ReportForward, PushEvent;
    if a.phy.busy {
      SendingTick(a.phy, high);
      if !s.phy.busy {
        PollEnds(a, s);
        CompletionBase(a, s);
        ForwardOrder(s.(phy := PollTx(s.phy).0), PollTx(s.phy).1);
      }
    } else {
      ListeningTick(a.phy, high);
    }
  }

  lemma ForwardOrder(k: Core, poll: TxPoll)
    ensures var r := ReportForward(k, poll); Lesser(k.demand, r.demand) && SameOrders(k.ledger, r.ledger)
  {
    hide PushEvent, ReportCollision;
    CollisionOrder(k.(phy := k.phy.(tx := k.phy.tx.(idleAfterBreak := false))));
  }

  lemma CollisionOrder(k: Core)
    ensures var r := ReportCollision(k); Lesser(k.demand, r.demand) && SameOrders(k.ledger, r.ledger)
  {
    hide PushEvent, AbortBatchTail;
    var c := k.(ledger := Closing(k.ledger, k.demand.pending, Collided), demand := k.demand.(pending := None),
                session := k.session.(expects := false, window := 0));
    AbortOrder(c);
  }

  lemma DrainOrder(h: Core)
    ensures var r := DrainCompletedRx(h);
            && Lesser(h.demand, r.demand) && SameOrders(h.ledger, r.ledger)
            && r.phy == TakeCompleted(h.phy).0 && r.session.isAnswer == h.session.isAnswer
  {
    hide Tags, PushEvent, CloseWindowWith, AbortBatchTail, PushSniffer;
    if h.phy.rx.state.Completed? {
      var c := h.(phy := TakeCompleted(h.phy).0);
      var n := NoteForwardCapture(c);
      var back := RxEvent(h.phy.rx.last, c.clock.busEpoch, c.clock.now, 0, NotDecoded);
      var ev := RxEvent(h.phy.rx.last, n.clock.busEpoch, n.clock.now, 0, NotDecoded);
      var foreign := ForeignForward(ev.capture.preIdle, ev.capture.sampleCount);
      WindowOrder(c, RxComplete(back));
      SnifferOrder(CloseWindowWith(c, RxComplete(back)), back);
      AbortOrder(n);
      WindowOrder(AbortBatchTail(n), foreign);
      SnifferOrder(CloseWindowWith(AbortBatchTail(n), foreign), ev);
    }
  }

  lemma WindowOrder(c: Core, event: SessionEvent)
    ensures var r := CloseWindowWith(c, event);
            r.demand == c.demand && r.ledger == c.ledger && r.phy == c.phy && r.session.isAnswer == c.session.isAnswer
  {
  }

  lemma SnifferOrder(c: Core, ev: RxEvent)
    ensures var r := PushSniffer(c, ev); r == c.(sniffer := r.sniffer)
  {
  }

  lemma AbortOrder(c: Core)
    ensures var r := AbortBatchTail(c);
            && Lesser(c.demand, r.demand) && SameOrders(c.ledger, r.ledger)
            && r.phy == c.phy && r.session.isAnswer == c.session.isAnswer
  {
    hide Tags, PushEvent;
  }

  lemma StepHeldOrder(k: Core, answer: Option<u8>)
    requires HeldOk(k.sniffer)
    ensures var h := StepHeld(k, answer);
            h.demand == k.demand && h.ledger == k.ledger && h.phy == k.phy && h.session == k.session
  {
    hide PhaseSearch.SearchStep;
  }

  lemma TickOrder(c: Core, high: bool, answer: Option<u8>)
    requires Rest(c) && OrderInv(c.demand, c.ledger) && LastArmed(c)
    ensures Ready(c)
    ensures var r := IsrTick(c, high, answer); OrderInv(r.demand, r.ledger) && LastArmed(r)
  {
    hide ArmPending, Sample, Conclude, StepHeld, DrainCompletedRx, Tick, Rest, OrderInv;
    var a, s, k, h := Stages(c, high, answer);
    ArmPendingOrder(c);
    OrderShrinks(a.demand, a.ledger, s.demand, s.ledger);
    ConcludeOrder(a, s, high);
    OrderShrinks(s.demand, s.ledger, k.demand, k.ledger);
    StepHeldOrder(k, answer);
    DrainOrder(h);
    OrderShrinks(h.demand, h.ledger, DrainCompletedRx(h).demand, DrainCompletedRx(h).ledger);
  }

  // ---- Calls ----

  lemma IssuingOrder(d: Demand, l: Ledger, r: Request, batched: bool)
    requires OrderInv(d, l)
    ensures var q := Stamped(l, r, batched); OrderInv(d, Issuing(l, q)) && Own(q, Issuing(l, q).issued)
  {
    hide InTurn, InLine, Tags, Before;
  }

  lemma SubmitOrder(c: Core, r: Request)
    requires OrderInv(c.demand, c.ledger)
    ensures var k := SubmitTx(c, r).0; OrderInv(k.demand, k.ledger)
  {
    hide InTurn, Tags, Numbered, Own, Sendable;
    IssuingOrder(c.demand, c.ledger, r, false);
  }

  lemma QueueOrder(c: Core, r: Request)
    requires OrderInv(c.demand, c.ledger)
    ensures var k := QueueTx(c, r).0; OrderInv(k.demand, k.ledger)
  {
    hide InTurn, Tags, Sendable;
    IssuingOrder(c.demand, c.ledger, r, true);
    var q := Stamped(c.ledger, r, true);
    QueueOwn(c.demand, Issuing(c.ledger, q).issued, q);
  }

  lemma StepOrder(c: Core, a: Action)
    requires Rest(c) && OrderInv(c.demand, c.ledger) && LastArmed(c)
    ensures Ready(c)
    ensures var r := Step(c, a); OrderInv(r.demand, r.ledger) && LastArmed(r)
  {
    hide IsrTick, PopSessionEventFor, OrderInv, Sendable;
    RestIsReady(c);
    match a
    case TickWith(high, answer) =>
      TickOrder(c, high, answer);
    case Submit(r) =>
      SubmitOrder(c, r);
    case Queue(r) =>
      QueueOrder(c, r);
    case PopEvent(e) =>
      PopKeeps(c, e);
    case TakeAborted =>
      OrderShrinks(c.demand, c.ledger, Step(c, a).demand, c.ledger);
    case _ =>
  }

  lemma {:induction false} RunOrder(c: Core, run: seq<Action>)
    requires Rest(c) && OrderInv(c.demand, c.ledger) && LastArmed(c)
    ensures var r := Exec(c, run); OrderInv(r.demand, r.ledger) && LastArmed(r)
    decreases |run|
  {
    hide Step, Rest, OrderInv, LastArmed;
    if run != [] {
      StepRests(c, run[0]);
      StepOrder(c, run[0]);
      RunOrder(Step(c, run[0]), run[1..]);
    }
  }

  /**
   In every run, with cancellations or without: batched requests wait in the order they were queued
   and were put on the wire in that order; every request put there is the one accepted under its tag,
   and the forward frame on the wire is the frame of the last of them, after the silence it asked for.
   */
  lemma BatchesGoOutInOrder(run: seq<Action>)
    ensures Rest(NewCore())
    ensures var c := Exec(NewCore(), run);
            && InLine(c.demand) && InTurn(c.ledger.armings) && LastArmed(c)
            && Tags(c.ledger.armings) == c.ledger.armed && |c.ledger.issued| == c.ledger.nextTag
            && forall i | 0 <= i < |c.ledger.armings| ::
                 Own(c.ledger.armings[i], c.ledger.issued) && Before(c.ledger.armings[i], c.demand)
  {
    hide Exec, Own, Before;
    NewCoreRests();
    RunOrder(NewCore(), run);
  }
}
