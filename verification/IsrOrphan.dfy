/**
 Requests accepted after an acknowledged cancel, and the frame of the cancelled exchange that is
 still on the wire: when its end leaves them alone, and how a second cancel loses them (isr.rs).
 */
module IsrOrphan {
  import opened Wrappers
  import opened Fsm
  import opened PhySteps
  import opened Isr
  import opened IsrBase
  import opened IsrBusy
  import opened IsrRecovery

  /** The break after a collision is over with this tick. */
  predicate BreakOver(p: Phy) {
    p.state.CollisionTx? && (p.tx.slot + 1) % 0x100 >= COLLISION_CHECK_TICK
  }

  lemma BreakOverEnds(p: Phy, high: bool)
    requires Sound(p) && p.state.CollisionTx?
    ensures BreakOver(p) <==> !Tick(p, high).busy
  {
    hide ReplayLow;
  }

  /**
   The frame on the wire has lost its request to a cancel. The requests that came after survive
   this tick exactly when the cancel still stands, there are none queued, or no break ends here.
   */
  lemma LaterRequestsSurviveIff(c: Core, high: bool, answer: Option<u8>)
    requires Rest(c) && ForwardOnWire(c) && c.control.requested == 0 && (c.control.active || c.demand.pending.None?)
    ensures Ready(c)
    ensures var r := IsrTick(c, high, answer);
            (r.demand.cell == c.demand.cell && r.demand.queue == c.demand.queue)
            <==> (c.control.active || c.demand.queue == [] || !BreakOver(c.phy))
  {
    hide IsrTick, Tick, Tags, HeldOk, AllSendable, PushEvent;
    if c.phy.state.CollisionTx? {
      BreakOverEnds(c.phy, high);
    }
    if Tick(c.phy, high).busy {
      BusyTick(c, high, answer);
    } else {
      var k, poll := EndingTick(c, high, answer);
    }
  }

  // ---- Two cancels ----

  /** With a frame on the wire a cancel is applied and the tick goes on. */
  lemma CancelThenTick(c: Core, high: bool)
    requires Rest(c) && c.phy.busy
    ensures Ready(c) && Rest(ApplyRequestedCancel(c)) && Ready(ApplyRequestedCancel(c))
    ensures IsrTick(c, high, None) == IsrTick(ApplyRequestedCancel(c), high, None)
  {
    hide Sample, Conclude, StepHeld, DrainCompletedRx, Rest, ApplyRequestedCancel;
    CancelBase(c);
    RestIsReady(c);
    RestIsReady(ApplyRequestedCancel(c));
    AppliedOnce(c);
  }

  lemma AppliedOnce(c: Core)
    ensures var k := ApplyRequestedCancel(c); ApplyRequestedCancel(k) == k && k.phy == c.phy
  {
    hide Tags;
  }

  /** A break under way whose frame has no request any more. */
  predicate Orphaned(c: Core, k: nat) {
    && Rest(c) && ForwardOnWire(c) && c.phy.state.CollisionTx? && c.phy.tx.slot == k <= 13
    && c.demand.pending.None? && c.control.requested == 0 && !c.control.active
  }

  lemma FirstCancel(c: Core, r: Request, exchange: nat, high: bool)
    requires Breaking(c, r, 0) && exchange == r.exchange && exchange != 0
    ensures Rest(CancelExchange(c, exchange)) && Ready(CancelExchange(c, exchange))
    ensures var e := IsrTick(CancelExchange(c, exchange), high, None);
            && Rest(e) && ForwardOnWire(e) && e.phy.state.CollisionTx? && e.phy.tx.slot == 1 && e.control.requested == 0
            && e.control.acknowledged == exchange && e.session.activeEpoch == exchange
            && e.demand.queue == [] && e.demand.cell.None? && e.ledger.nextTag == c.ledger.nextTag
  {
    hide IsrTick, Tick, Tags, HeldOk, AllSendable;
    var d := CancelExchange(c, exchange);
    var k := ApplyRequestedCancel(d);
    CancelThenTick(d, high);
    BreakPhy(k.phy, high);
    BusyTick(k, high, None);
  }

  lemma SecondCancel(c: Core, other: nat, high: bool)
    requires Rest(c) && ForwardOnWire(c) && c.phy.state.CollisionTx? && c.phy.tx.slot == 1
    requires other != 0 && other != c.session.activeEpoch
    ensures Rest(CancelExchange(c, other)) && Ready(CancelExchange(c, other))
    ensures var e := IsrTick(CancelExchange(c, other), high, None);
            && Orphaned(e, 2) && e.control.acknowledged == other && e.demand.queue == [] && e.demand.cell.None?
            && e.ledger.nextTag == c.ledger.nextTag
  {
    hide IsrTick, Tick, Tags, HeldOk, AllSendable;
    var d := CancelExchange(c, other);
    var k := ApplyRequestedCancel(d);
    CancelThenTick(d, high);
    BreakPhy(k.phy, high);
    BusyTick(k, high, None);
  }

  lemma OrphanStep(c: Core, k: nat)
    requires Orphaned(c, k) && k < 13
    ensures Ready(c)
    ensures var e := IsrTick(c, c.phy.out, None);
            Orphaned(e, k + 1) && e.demand == c.demand && e.ledger.nextTag == c.ledger.nextTag
  {
    hide IsrTick, HeldOk, AllSendable;
    BreakPhy(c.phy, c.phy.out);
    BusyTick(c, c.phy.out, None);
  }

  lemma {:induction false} OrphanRuns(c: Core, k: nat)
    requires Orphaned(c, 2) && k <= 11
    ensures var e := EchoAfter(c, k); Orphaned(e, 2 + k) && e.demand == c.demand && e.ledger.nextTag == c.ledger.nextTag
    decreases k
  {
    hide IsrTick;
    if k > 0 {
      OrphanRuns(c, k - 1);
      OrphanStep(EchoAfter(c, k - 1), 2 + k - 1);
    }
  }

  lemma OrphanEnds(c: Core, r: Request)
    requires Orphaned(c, 13) && c.demand.queue == [r]
    ensures Ready(c)
    ensures var e := IsrTick(c, c.phy.out, None);
            e.demand.queue == [] && e.demand.pending.None? && r.tag in e.ledger.dropped && e.demand.batchAborted
  {
    hide IsrTick, Tick, HeldOk, AllSendable;
    BreakOverEnds(c.phy, c.phy.out);
    var k, poll := EndingTick(c, c.phy.out, None);
    assert Tags([r]) == multiset{r.tag} + Tags([r][1..]);
  }

  /** The ticks up to a point of the run below. */
  function AfterFirst(c: Core, r: Request, high: bool): Core
    requires Breaking(c, r, 0) && r.exchange != 0
  {
    FirstCancel(c, r, r.exchange, high);
    IsrTick(CancelExchange(c, r.exchange), high, None)
  }

  function AfterSecond(c: Core, r: Request, other: nat, high: bool): (e: Core)
    requires Breaking(c, r, 0) && r.exchange != 0 && other != 0 && other != r.exchange
    ensures Orphaned(e, 2) && e.demand.queue == [] && e.demand.cell.None? && e.ledger.nextTag == c.ledger.nextTag
    ensures e.control.acknowledged == other
  {
    FirstCancel(c, r, r.exchange, high);
    var d := AfterFirst(c, r, high);
    SecondCancel(d, other, high);
    IsrTick(CancelExchange(d, other), high, None)
  }

  /**
   A break is under way, its exchange is cancelled and acknowledged, and so is another one. A
   request queued after both acknowledgements is dropped when the cancelled frame's break ends.
   */
  lemma SecondCancelLosesTheQueue(c: Core, r: Request, other: nat, high: bool, later: Request)
    requires Breaking(c, r, 0) && r.exchange != 0 && other != 0 && other != r.exchange && Sendable(later.frame)
    ensures var e := AfterSecond(c, r, other, high);
            var (q, accepted) := QueueTx(e, later);
            && accepted && q.demand.queue == [later.(tag := c.ledger.nextTag, batched := true)] && Rest(q)
            && var z := EchoAfter(q, 12);
               z.demand.queue == [] && z.demand.pending.None? && c.ledger.nextTag in z.ledger.dropped
  {
    hide IsrTick, AfterSecond, Tick, EncodedFrame;
    var e := AfterSecond(c, r, other, high);
    var (q, accepted) := QueueTx(e, later);
    QueuedOrphan(e, later);
    OrphanRuns(q, 11);
    OrphanEnds(EchoAfter(q, 11), later.(tag := c.ledger.nextTag, batched := true));
  }

  lemma QueuedOrphan(e: Core, later: Request)
    requires Orphaned(e, 2) && e.demand.queue == [] && Sendable(later.frame)
    ensures var (q, accepted) := QueueTx(e, later);
            accepted && Orphaned(q, 2) && q.demand.queue == [later.(tag := e.ledger.nextTag, batched := true)]
  {
  }
}
