/**
 No request is lost, doubled or reported twice: every accepted one is at every moment in exactly
 one place (isr.rs).
 */
module IsrLedger {
  import opened Wrappers
  import opened Fsm
  import opened PhaseSearch
  import opened RxDecode
  import opened Isr
  import opened IsrBase

  /** The requests still on their way. */
  function InHand(d: Demand): multiset<nat> {
    TagOf(d.cell) + Tags(d.queue) + TagOf(d.pending)
  }

  /** The requests that have come to an end. */
  function Closed(l: Ledger): multiset<nat> {
    l.completed + l.collided + l.voided + l.rejected + l.dropped + l.cancelled
  }

  function Places(d: Demand, l: Ledger): multiset<nat> {
    InHand(d) + Closed(l)
  }

  /** Each tag given out is in one place, once; no other tag is anywhere. */
  ghost predicate Conserved(c: Core) {
    forall t: nat :: Places(c.demand, c.ledger)[t] == if t < c.ledger.nextTag then 1 else 0
  }

  /** A request is restarted after a break at most once. */
  ghost predicate RestartsOnce(d: Demand, l: Ledger) {
    && (forall t: nat :: l.restarted[t] <= 1 && (l.restarted[t] > 0 ==> t < l.nextTag))
    && (d.cell.Some? ==> l.restarted[d.cell.value.tag] == 0)
    && (d.pending.Some? && l.restarted[d.pending.value.tag] > 0 ==> d.pending.value.restartGate == 0)
    && forall i | 0 <= i < |d.queue| :: l.restarted[d.queue[i].tag] == 0
  }

  /** An event pushed is in the ring, taken out, or counted as dropped. */
  predicate OutboxInv(o: Outbox) {
    |o.log| == o.taken + |o.ring| + o.dropped && |o.ring| < SESSION_RING_CAP && multiset(o.ring) <= multiset(o.log)
  }

  ghost predicate LedgerInv(c: Core) {
    Conserved(c) && RestartsOnce(c.demand, c.ledger) && OutboxInv(c.outbox) && c.ledger.rejected == multiset{}
  }

  /** What a part of a tick does to the books. */
  ghost predicate Books(c: Core, r: Core) {
    && Places(r.demand, r.ledger) == Places(c.demand, c.ledger) && r.ledger.nextTag == c.ledger.nextTag
    && r.ledger.rejected == c.ledger.rejected
    && (RestartsOnce(c.demand, c.ledger) ==> RestartsOnce(r.demand, r.ledger))
    && (OutboxInv(c.outbox) ==> OutboxInv(r.outbox))
  }

  lemma BooksKeep(c: Core, r: Core)
    requires LedgerInv(c) && Books(c, r)
    ensures LedgerInv(r)
  {
    hide RestartsOnce, Places;
  }

  lemma BooksTrans(c: Core, k: Core, r: Core)
    requires Books(c, k) && Books(k, r)
    ensures Books(c, r)
  {
    hide RestartsOnce, Places;
  }

  // ---- The parts of a tick ----

  lemma PushKeeps(o: Outbox, exchange: nat, event: SessionEvent)
    requires OutboxInv(o)
    ensures OutboxInv(PushEvent(o, exchange, event))
  {
    var item := (exchange, event);
    assert multiset(o.ring + [item]) == multiset(o.ring) + multiset{item};
    assert multiset(o.log + [item]) == multiset(o.log) + multiset{item};
  }

  lemma PushesKeep(c: Core, r: Core, exchange: nat, event: SessionEvent)
    requires r.outbox == c.outbox || r.outbox == PushEvent(c.outbox, exchange, event)
    ensures OutboxInv(c.outbox) ==> OutboxInv(r.outbox)
  {
    hide OutboxInv, PushEvent;
    if OutboxInv(c.outbox) {
      PushKeeps(c.outbox, exchange, event);
    }
  }

  lemma NoTags()
    ensures Tags([]) == multiset{}
  {
  }

  lemma CancelBooks(c: Core)
    ensures Books(c, ApplyRequestedCancel(c))
  {
    hide Tags, OutboxInv, RestartsOnce;
    NoTags();
    CancelRestarts(c);
  }

  lemma CancelRestarts(c: Core)
    ensures var r := ApplyRequestedCancel(c); RestartsOnce(c.demand, c.ledger) ==> RestartsOnce(r.demand, r.ledger)
  {
    hide Tags, TagOf;
  }

  lemma TakeUpInHand(d: Demand)
    ensures InHand(TakeUp(d)) == InHand(d)
  {
  }

  lemma TakeUpRestarts(d: Demand, l: Ledger)
    requires RestartsOnce(d, l)
    ensures RestartsOnce(TakeUp(d), l)
  {
    if d.pending.None? && d.queue != [] {
      assert forall i | 0 <= i < |d.queue[1..]| :: d.queue[1..][i] == d.queue[i + 1];
    }
  }

  lemma TakeUpBooks(c: Core)
    ensures Books(c, c.(demand := TakeUp(c.demand)))
  {
    hide InHand, RestartsOnce, TakeUp;
    TakeUpInHand(c.demand);
    if RestartsOnce(c.demand, c.ledger) {
      TakeUpRestarts(c.demand, c.ledger);
    }
  }

  lemma ArmForwardBooks(c: Core)
    requires Rest(c) && c.phy.state.Idle? && c.session.window == 0
    ensures Armable(c) && Books(c, ArmForward(c))
  {
    hide ArmForward, LoadTx, Rest;
    ArmReady(c);
    ArmForwardBase(c);
    TakeUpBooks(c);
  }

  lemma ArmBooks(c: Core)
    requires Rest(c)
    ensures Armable(c) && Books(c, ArmPending(c))
  {
    hide Rest, ApplyRequestedCancel, TryArm, ArmForward, Books;
    ArmReady(c);
    CancelBase(c);
    CancelBooks(c);
    var k := ApplyRequestedCancel(c);
    ArmReady(k);
    if !k.phy.busy {
      TryArmBase(k);
      TryArmBooks(k);
      var (a, tried) := TryArm(k);
      BooksTrans(c, k, a);
      if tried.NotStaged? && a.session.window == 0 && a.phy.state.Idle? && !LineDebouncing(a.phy) {
        ArmReady(a);
        ArmForwardBooks(a);
        BooksTrans(c, a, ArmForward(a));
      }
    }
  }

  lemma TryArmBooks(c: Core)
    requires Armable(c)
    ensures var a := TryArm(c).0; Books(c, a) && a.ledger == c.ledger && a.demand == c.demand && a.outbox == c.outbox
  {
    hide LineUnder, GateAt, RestartsOnce, Places;
  }

  lemma AbortBooks(c: Core)
    ensures Books(c, AbortBatchTail(c))
  {
    hide Tags, OutboxInv, RestartsOnce, PushEvent, Closing, Closed;
    NoTags();
    AbortRestarts(c);
    var l := Closing(c.ledger, c.demand.pending, Voided);
    ClosingCloses(c.ledger, c.demand.pending, Voided);
    DroppingCloses(l, Tags(c.demand.queue));
    if c.demand.pending.Some? {
      PushesKeep(c, AbortBatchTail(c), c.demand.pending.value.exchange, TxVoided);
    }
  }

  lemma ClosingCloses(l: Ledger, r: Option<Request>, fate: Fate)
    ensures var k := Closing(l, r, fate);
            && Closed(k) == Closed(l) + TagOf(r) && k.nextTag == l.nextTag && k.rejected == l.rejected
            && k.restarted == l.restarted && k.dropped == l.dropped
  {
  }

  lemma DroppingCloses(l: Ledger, gone: multiset<nat>)
    ensures Closed(l.(dropped := l.dropped + gone)) == Closed(l) + gone
  {
  }

  lemma AbortRestarts(c: Core)
    ensures var r := AbortBatchTail(c); RestartsOnce(c.demand, c.ledger) ==> RestartsOnce(r.demand, r.ledger)
  {
    hide Tags, TagOf, PushEvent;
  }

  lemma SampledBooks(a: Core, s: Core)
    requires Sampled(a, s)
    ensures Books(a, s)
  {
  }

  lemma RestartBooks(c: Core)
    requires CanRestart(c.demand) && Conserved(c)
    ensures Books(c, Restart(c))
  {
    var r := Restart(c);
    var tag := c.demand.pending.value.tag;
    assert TagOf(r.demand.pending) == TagOf(c.demand.pending);
    if RestartsOnce(c.demand, c.ledger) {
      OthersDiffer(c);
      assert c.ledger.restarted[tag] == 0;
    }
  }

  /** The request taken up is in no other place. */
  lemma OthersDiffer(c: Core)
    requires Conserved(c) && c.demand.pending.Some?
    ensures var tag := c.demand.pending.value.tag;
            && tag < c.ledger.nextTag
            && (c.demand.cell.Some? ==> c.demand.cell.value.tag != tag)
            && forall i | 0 <= i < |c.demand.queue| :: c.demand.queue[i].tag != tag
  {
    var tag := c.demand.pending.value.tag;
    assert Places(c.demand, c.ledger)[tag] >= 1;
    forall i | 0 <= i < |c.demand.queue| ensures c.demand.queue[i].tag != tag {
      TagsHave(c.demand.queue, i);
    }
  }

  lemma {:induction false} TagsHave(s: seq<Request>, i: nat)
    requires i < |s|
    ensures Tags(s)[s[i].tag] >= 1
    decreases |s|
  {
    if i > 0 {
      TagsHave(s[1..], i - 1);
    }
  }

  lemma ReportCollisionBooks(c: Core)
    ensures Books(c, ReportCollision(c))
  {
    hide AbortBatchTail, RestartsOnce, InHand, Closed, OutboxInv, PushEvent;
    var k := c.(ledger := Closing(c.ledger, c.demand.pending, Collided),
                demand := c.demand.(pending := None),
                session := c.session.(expects := false, window := 0));
    CollidedBooks(c, k);
    AbortBooks(k);
    BooksTrans(c, k, AbortBatchTail(k));
    PushesKeep(AbortBatchTail(k), ReportCollision(c), AbortBatchTail(k).session.activeEpoch, TxCollision);
  }

  lemma CollidedBooks(c: Core, k: Core)
    requires k.demand == c.demand.(pending := None) && k.outbox == c.outbox
    requires k.ledger == Closing(c.ledger, c.demand.pending, Collided)
    ensures Books(c, k)
  {
  }

  lemma ReportForwardBooks(k: Core, poll: TxPoll)
    requires Conserved(k)
    ensures Books(k, ReportForward(k, poll))
  {
    hide Places, RestartsOnce, ReportCollision, Restart;
    var q := k.(phy := k.phy.(tx := k.phy.tx.(idleAfterBreak := false)));
    if k.control.active {
      CancelledBooks(k, poll);
    } else if poll.Sent? {
      SentBooks(k);
    } else if poll.Collision? {
      if k.phy.tx.idleAfterBreak && CanRestart(q.demand) {
        RestartBooks(q);
      } else {
        ReportCollisionBooks(q);
      }
    }
  }

  lemma CancelledBooks(k: Core, poll: TxPoll)
    ensures Books(k, FinishCancelled(k, poll))
  {
  }

  lemma ClosingRestarts(d: Demand, l: Ledger, fate: Fate)
    ensures RestartsOnce(d, l) ==> RestartsOnce(d.(pending := None), Closing(l, d.pending, fate))
  {
  }

  lemma SentBooks(k: Core)
    ensures Books(k, ReportSent(k))
  {
    hide Tags, OutboxInv, PushEvent, Closing, Closed, RestartsOnce;
    ClosingCloses(k.ledger, k.demand.pending, Delivered);
    ClosingRestarts(k.demand, k.ledger, Delivered);
    PushesKeep(k, ReportSent(k), k.session.activeEpoch, TxComplete(k.phy.tx.preIdle));
  }

  lemma ConcludeBooks(s: Core, wasBusy: bool)
    requires Conserved(s)
    ensures Books(s, Conclude(s, wasBusy))
  {
    hide Places, RestartsOnce, ReportForward;
    if wasBusy && !s.phy.busy {
      var (p, poll) := PollTx(s.phy);
      ReportForwardBooks(s.(phy := p), poll);
    }
  }

  lemma StepHeldBooks(k: Core, answer: Option<u8>)
    requires HeldOk(k.sniffer)
    ensures var h := StepHeld(k, answer);
            Books(k, h) && h.demand == k.demand && h.ledger == k.ledger && h.outbox == k.outbox && h.control == k.control
            && h.windows == k.windows && h.session == k.session && h.phy == k.phy
  {
    hide SearchStep, Places, RestartsOnce, EncodedFrame, PushRing;
  }

  lemma CloseWindowBooks(c: Core, event: SessionEvent)
    ensures Books(c, CloseWindowWith(c, event))
  {
    hide Places, RestartsOnce, OutboxInv, PushEvent;
    PushesKeep(c, CloseWindowWith(c, event), c.session.window, event);
  }

  lemma SniffBooks(c: Core, ev: RxEvent)
    ensures Books(c, PushSniffer(c, ev))
  {
    hide Places, RestartsOnce, OutboxInv, PushRing;
  }

  lemma DrainBooks(h: Core)
    ensures Books(h, DrainCompletedRx(h))
  {
    hide AbortBatchTail, PushSniffer, CloseWindowWith, Books;
    SameBooks(h);
    if h.phy.rx.state.Completed? {
      var c := h.(phy := TakeCompleted(h.phy).0);
      var ev := RxEvent(h.phy.rx.last, c.clock.busEpoch, c.clock.now, 0, NotDecoded);
      var back := CloseWindowWith(c, RxComplete(ev));
      CloseWindowBooks(c, RxComplete(ev));
      BooksTrans(h, c, back);
      SniffBooks(back, ev);
      BooksTrans(h, back, PushSniffer(back, ev));
      var n := NoteForwardCapture(c);
      var fev := RxEvent(h.phy.rx.last, n.clock.busEpoch, n.clock.now, 0, NotDecoded);
      AbortBooks(n);
      BooksTrans(h, n, AbortBatchTail(n));
      var event := ForeignForward(fev.capture.preIdle, fev.capture.sampleCount);
      var fwd := CloseWindowWith(AbortBatchTail(n), event);
      CloseWindowBooks(AbortBatchTail(n), event);
      BooksTrans(h, AbortBatchTail(n), fwd);
      SniffBooks(fwd, fev);
      BooksTrans(h, fwd, PushSniffer(fwd, fev));
    }
  }

  lemma SameBooks(h: Core)
    ensures Books(h, h)
    ensures var c := h.(phy := TakeCompleted(h.phy).0); Books(h, c) && Books(h, NoteForwardCapture(c))
  {
    hide RestartsOnce, Places;
  }

  lemma TickBooks(c: Core, high: bool, answer: Option<u8>)
    requires Rest(c) && LedgerInv(c)
    ensures Ready(c) && LedgerInv(IsrTick(c, high, answer))
  {
    hide ArmPending, Sample, Conclude, StepHeld, DrainCompletedRx, Tick, Rest, Base, Books, LedgerInv, Sampled;
    var a, s, k, h := Stages(c, high, answer);
    ArmBooks(c);
    BooksKeep(c, a);
    SampledBooks(a, s);
    BooksKeep(a, s);
    LedgerConserves(s);
    ConcludeBooks(s, a.phy.busy);
    BooksKeep(s, k);
    StepHeldBooks(k, answer);
    BooksKeep(k, h);
    DrainBooks(h);
    BooksKeep(h, DrainCompletedRx(h));
  }

  lemma LedgerConserves(s: Core)
    requires LedgerInv(s)
    ensures Conserved(s)
  {
  }

  // ---- Runs ----

  lemma {:induction false} TagsSnoc(s: seq<Request>, r: Request)
    ensures Tags(s + [r]) == Tags(s) + multiset{r.tag}
    decreases |s|
  {
    if s == [] {
      assert s + [r] == [r];
      assert Tags([r]) == multiset{r.tag} + Tags([r][1..]);
    } else {
      assert (s + [r])[1..] == s[1..] + [r];
      TagsSnoc(s[1..], r);
    }
  }

  /** A request accepted takes the next tag into the cell or the queue. */
  lemma AcceptBooks(c: Core, k: Core)
    requires LedgerInv(c) && k.outbox == c.outbox && k.ledger == c.ledger.(nextTag := c.ledger.nextTag + 1, issued := k.ledger.issued)
    requires InHand(k.demand) == InHand(c.demand) + multiset{c.ledger.nextTag}
    requires RestartsOnce(k.demand, k.ledger)
    ensures LedgerInv(k)
  {
    hide InHand, RestartsOnce;
    assert Closed(k.ledger) == Closed(c.ledger);
    forall t: nat ensures Places(k.demand, k.ledger)[t] == if t < k.ledger.nextTag then 1 else 0 {
      assert Places(c.demand, c.ledger)[t] == if t < c.ledger.nextTag then 1 else 0;
    }
  }

  lemma SubmitBooks(c: Core, r: Request)
    requires LedgerInv(c)
    ensures LedgerInv(SubmitTx(c, r).0)
  {
    hide Closed, Conserved, OutboxInv, Sendable;
    var (k, ok) := SubmitTx(c, r);
    if ok {
      assert c.ledger.restarted[c.ledger.nextTag] == 0;
      AcceptBooks(c, k);
    }
  }

  lemma QueueBooks(c: Core, r: Request)
    requires LedgerInv(c)
    ensures LedgerInv(QueueTx(c, r).0)
  {
    hide Closed, Conserved, OutboxInv, RestartsOnce, Tags, Sendable;
    var (k, ok) := QueueTx(c, r);
    if ok {
      var q := Stamped(c.ledger, r, true);
      TagsSnoc(c.demand.queue, q);
      QueueRestarts(c.demand, c.ledger, q);
      AcceptBooks(c, k);
    }
  }

  lemma QueueRestarts(d: Demand, l: Ledger, q: Request)
    requires RestartsOnce(d, l) && q.tag == l.nextTag
    ensures RestartsOnce(d.(queue := d.queue + [q]), Issuing(l, q))
  {
    assert l.restarted[l.nextTag] == 0;
  }

  lemma {:induction false} PopBooks(c: Core, exchange: nat)
    requires OutboxInv(c.outbox)
    ensures OutboxInv(PopSessionEventFor(c, exchange).0.outbox)
    decreases |c.outbox.ring|
  {
    if c.outbox.ring != [] {
      var k := c.(outbox := c.outbox.(ring := c.outbox.ring[1..], taken := c.outbox.taken + 1));
      assert c.outbox.ring == [c.outbox.ring[0]] + c.outbox.ring[1..];
      PopBooks(k, exchange);
    }
  }

  lemma PopLedger(c: Core, exchange: nat)
    requires LedgerInv(c)
    ensures LedgerInv(PopSessionEventFor(c, exchange).0)
  {
    hide PopSessionEventFor, OutboxInv;
    PopKeeps(c, exchange);
    PopBooks(c, exchange);
  }

  lemma QuietBooks(c: Core, k: Core)
    requires LedgerInv(c) && k.ledger == c.ledger && k.outbox == c.outbox
    requires k.demand == c.demand.(batchAborted := k.demand.batchAborted)
    ensures LedgerInv(k)
  {
    assert Books(c, k);
    BooksKeep(c, k);
  }

  lemma StepBooks(c: Core, a: Action)
    requires Rest(c) && LedgerInv(c)
    ensures Ready(c) && LedgerInv(Step(c, a))
  {
    hide IsrTick, PopSessionEventFor, SubmitTx, QueueTx, LedgerInv;
    RestIsReady(c);
    match a
    case TickWith(high, answer) =>
      TickBooks(c, high, answer);
    case Submit(r) =>
      SubmitBooks(c, r);
    case Queue(r) =>
      QueueBooks(c, r);
    case PopEvent(e) =>
      PopKeeps(c, e);
      PopLedger(c, e);
    case _ =>
      QuietBooks(c, Step(c, a));
  }

  /** In every run, with cancellations or without, every accepted request is in exactly one place. */
  lemma {:induction false} RequestsAreConserved(c: Core, run: seq<Action>)
    requires Rest(c) && LedgerInv(c)
    ensures LedgerInv(Exec(c, run))
    decreases |run|
  {
    hide Step, LedgerInv, Rest;
    if run != [] {
      StepRests(c, run[0]);
      StepBooks(c, run[0]);
      RequestsAreConserved(Step(c, run[0]), run[1..]);
    }
  }

  lemma NewBooks()
    ensures Rest(NewCore()) && LedgerInv(NewCore())
  {
    NewCoreRests();
  }
}
