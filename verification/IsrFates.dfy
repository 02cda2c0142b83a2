/**
 Runs without cancellation: what tasks are told is, event by event, what became of the requests,
 each addressed to the exchange it was submitted for (isr.rs).
 */
module IsrFates {
  import opened Wrappers
  import opened Fsm
  import opened RxDecode
  import opened PhySteps
  import opened Isr
  import opened IsrBase
  import opened IsrLedger
  import opened IsrOrder
  import opened IsrReports
  import opened IsrWindows

  // ---- What is told and what became ----

  /** The end of a request that an event tells of. */
  function FateOf(e: SessionEvent): Option<Fate> {
    match e
    case TxComplete(_) => Some(Delivered)
    case TxCollision => Some(Collided)
    case TxVoided => Some(Voided)
    case _ => None
  }

  function Telling(exchange: nat, e: SessionEvent): seq<(nat, Fate)> {
    if FateOf(e).Some? then [(exchange, FateOf(e).value)] else []
  }

  /** The ends told, oldest first, each with the exchange it is stamped with. */
  function Told(log: seq<(nat, SessionEvent)>): seq<(nat, Fate)> {
    if log == [] then []
    else Told(log[..|log| - 1]) + Telling(log[|log| - 1].0, log[|log| - 1].1)
  }

  /** The ends the requests came to, oldest first, each with the request's own exchange. */
  function Outcomes(ended: seq<Ending>): (r: seq<(nat, Fate)>)
    ensures |r| == |ended|
  {
    seq(|ended|, i requires 0 <= i < |ended| => (ended[i].exchange, ended[i].fate))
  }

  /** The requests that came to one kind of end. */
  function Ended(ended: seq<Ending>, fate: Fate): multiset<nat> {
    if ended == [] then multiset{}
    else
      var last := ended[|ended| - 1];
      Ended(ended[..|ended| - 1], fate) + if last.fate == fate then multiset{last.tag} else multiset{}
  }

  predicate FatesMatch(l: Ledger) {
    && Ended(l.ended, Delivered) == l.completed && Ended(l.ended, Collided) == l.collided
    && Ended(l.ended, Voided) == l.voided
  }

  // ---- Exchanges stay with their requests ----

  predicate OwnEndings(l: Ledger) {
    && |l.issued| == l.nextTag
    && forall i | 0 <= i < |l.ended| :: l.ended[i].tag < |l.issued| && l.ended[i].exchange == l.issued[l.ended[i].tag].exchange
  }

  predicate BooksInv(d: Demand, l: Ledger) {
    FatesMatch(l) && OwnDemand(d, l.issued) && OwnEndings(l)
  }

  /** The reports are the endings, one for one. */
  predicate FatesInv(c: Core) {
    Told(c.outbox.log) == Outcomes(c.ledger.ended) && BooksInv(c.demand, c.ledger)
  }

  // ---- Single events and endings ----

  lemma PushTells(o: Outbox, exchange: nat, event: SessionEvent)
    ensures Told(PushEvent(o, exchange, event).log) == Told(o.log) + Telling(exchange, event)
  {
    hide PushEvent, Telling;
    Logged(o, exchange, event);
  }

  lemma ClosingEnds(l: Ledger, r: Request, fate: Fate)
    requires FatesMatch(l)
    ensures FatesMatch(Closing(l, Some(r), fate))
  {
    var k := Closing(l, Some(r), fate);
    assert k.ended[..|k.ended| - 1] == l.ended;
  }

  lemma ClosingBooks(d: Demand, l: Ledger, fate: Fate)
    requires BooksInv(d, l)
    ensures BooksInv(d.(pending := None), Closing(l, d.pending, fate))
  {
    hide Ended;
    if d.pending.Some? {
      ClosingEnds(l, d.pending.value, fate);
    }
  }

  lemma OutcomesGrow(ended: seq<Ending>, e: Ending)
    ensures Outcomes(ended + [e]) == Outcomes(ended) + [(e.exchange, e.fate)]
  {
  }

  /** A request that comes to its end is told so, under its own exchange. */
  lemma ClosingTells(o: Outbox, l: Ledger, r: Request, fate: Fate, event: SessionEvent)
    requires Told(o.log) == Outcomes(l.ended) && FateOf(event) == Some(fate)
    ensures Told(PushEvent(o, r.exchange, event).log) == Outcomes(Closing(l, Some(r), fate).ended)
  {
    hide PushEvent, Told, Outcomes;
    PushTells(o, r.exchange, event);
    OutcomesGrow(l.ended, Ending(r.tag, r.exchange, fate));
    ClosingAppends(l, r, fate);
  }

  lemma ClosingAppends(l: Ledger, r: Request, fate: Fate)
    ensures Closing(l, Some(r), fate).ended == l.ended + [Ending(r.tag, r.exchange, fate)]
  {
  }

  // ---- The parts of a tick ----

  /** Nothing came to an end and nothing was told. */
  predicate NoEnd(c: Core, r: Core) {
    && r.outbox.log == c.outbox.log
    && r.ledger == c.ledger.(armed := r.ledger.armed, armings := r.ledger.armings, restarted := r.ledger.restarted,
                             driven := r.ledger.driven)
    && (OwnDemand(c.demand, c.ledger.issued) ==> OwnDemand(r.demand, c.ledger.issued))
  }

  lemma NoEndKeeps(c: Core, r: Core)
    requires FatesInv(c) && NoEnd(c, r)
    ensures FatesInv(r)
  {
    hide Told, Outcomes, Ended, OwnDemand;
  }

  lemma ArmEndsNothing(c: Core)
    requires Rest(c) && CalmInv(c)
    ensures Armable(c) && NoEnd(c, ArmPending(c))
  {
    hide Rest, TryArm, ArmForward, CalmInv, OwnDemand;
    ArmReady(c);
    CalmIsUncancelled(c);
    if !c.phy.busy {
      TryArmBase(c);
      TryArmBooks(c);
      var (a, tried) := TryArm(c);
      if tried.NotStaged? && a.session.window == 0 && a.phy.state.Idle? && !LineDebouncing(a.phy) {
        ArmReady(a);
        ArmForwardBase(a);
        TakeUpOwn(a.demand, a.ledger.issued);
      }
    }
  }

  lemma SentFates(k: Core)
    requires FatesInv(k) && k.demand.pending.Some? && k.demand.pending.value.exchange == k.session.activeEpoch
    ensures FatesInv(ReportSent(k))
  {
    hide Told, Outcomes, BooksInv, PushEvent, Closing;
    ClosingBooks(k.demand, k.ledger, Delivered);
    ClosingTells(k.outbox, k.ledger, k.demand.pending.value, Delivered, TxComplete(k.phy.tx.preIdle));
  }

  /** The queue behind a request that ended is dropped without a report of its own. */
  lemma AbortFates(c: Core)
    requires FatesInv(c)
    ensures FatesInv(AbortBatchTail(c))
  {
    hide Told, Outcomes, PushEvent, Closing, Tags, Ended;
    ClosingBooks(c.demand, c.ledger, Voided);
    if c.demand.pending.Some? {
      ClosingTells(c.outbox, c.ledger, c.demand.pending.value, Voided, TxVoided);
    } else {
      ClosingNothing(c.ledger, Voided);
    }
    DropsNothing(Closing(c.ledger, c.demand.pending, Voided), c.ledger.dropped + Tags(c.demand.queue));
  }

  lemma ClosingNothing(l: Ledger, fate: Fate)
    ensures Closing(l, None, fate) == l
  {
  }

  lemma DropsNothing(l: Ledger, dropped: multiset<nat>)
    ensures FatesMatch(l) ==> FatesMatch(l.(dropped := dropped))
    ensures OwnEndings(l) ==> OwnEndings(l.(dropped := dropped))
  {
    hide Ended;
  }

  lemma CollisionFates(k: Core)
    requires FatesInv(k) && k.demand.pending.Some? && k.demand.pending.value.exchange == k.session.activeEpoch
    ensures FatesInv(ReportCollision(k))
  {
    hide Told, Outcomes, BooksInv, PushEvent, Closing, Tags;
    var l := Closing(k.ledger, k.demand.pending, Collided);
    ClosingBooks(k.demand, k.ledger, Collided);
    ClosingTells(k.outbox, k.ledger, k.demand.pending.value, Collided, TxCollision);
    ClosingNothing(l, Voided);
    var d := k.demand.(pending := None);
    QueueGone(d, l, Tags(d.queue));
  }

  lemma QueueGone(d: Demand, l: Ledger, gone: multiset<nat>)
    requires BooksInv(d, l) && d.pending.None?
    ensures forall aborted: bool :: BooksInv(Demand(d.cell, [], None, aborted), l.(dropped := l.dropped + gone))
  {
    hide Ended;
    DropsNothing(l, l.dropped + gone);
  }

  lemma ForwardFates(k: Core, poll: TxPoll)
    requires FatesInv(k) && !k.control.active && k.demand.pending.Some?
    requires k.demand.pending.value.exchange == k.session.activeEpoch && !poll.Transmitting?
    ensures FatesInv(ReportForward(k, poll))
  {
    hide Told, Outcomes, Ended, ReportSent, ReportCollision;
    var q := k.(phy := k.phy.(tx := k.phy.tx.(idleAfterBreak := false)));
    SentFates(k);
    CollisionFates(q);
  }

  lemma ConcludeFates(a: Core, s: Core, high: bool)
    requires Rest(a) && CalmInv(a) && FatesInv(a) && Sampled(a, s) && s.phy == Tick(a.phy, high)
    ensures FatesInv(Conclude(s, a.phy.busy))
  {
    hide Tick, PollTx, ReportForward, Told, Outcomes, Ended, HeldOk, AllSendable, Sound;
    NoEndKeeps(a, s);
    if a.phy.busy && !s.phy.busy {
      SendingTick(a.phy, high);
      PollEnds(a, s);
      var (p, poll) := PollTx(s.phy);
      if !s.session.isAnswer {
        ForwardFates(s.(phy := p), poll);
      }
    }
  }

  lemma CloseWindowFates(c: Core, event: SessionEvent)
    requires FatesInv(c) && OfWindow(event)
    ensures FatesInv(CloseWindowWith(c, event))
  {
    hide Told, Outcomes, BooksInv, PushEvent;
    PushTells(c.outbox, c.session.window, event);
  }

  lemma DrainFates(h: Core)
    requires FatesInv(h)
    ensures FatesInv(DrainCompletedRx(h))
  {
    hide FatesInv, CloseWindowWith, AbortBatchTail, PushRing, NewlyHeld;
    if h.phy.rx.state.Completed? {
      var c := h.(phy := TakeCompleted(h.phy).0);
      var n := NoteForwardCapture(c);
      SameFates(h, c);
      SameFates(h, n);
      var ev := RxEvent(h.phy.rx.last, c.clock.busEpoch, c.clock.now, 0, NotDecoded);
      var back := CloseWindowWith(c, RxComplete(ev));
      CloseWindowFates(c, RxComplete(ev));
      SameFates(back, PushSniffer(back, ev));
      var fev := RxEvent(h.phy.rx.last, n.clock.busEpoch, n.clock.now, 0, NotDecoded);
      var event := ForeignForward(fev.capture.preIdle, fev.capture.sampleCount);
      AbortFates(n);
      CloseWindowFates(AbortBatchTail(n), event);
      var fwd := CloseWindowWith(AbortBatchTail(n), event);
      SameFates(fwd, PushSniffer(fwd, fev));
    }
  }

  lemma SameFates(c: Core, r: Core)
    requires FatesInv(c) && r.outbox == c.outbox && r.ledger == c.ledger && r.demand == c.demand
    ensures FatesInv(r)
  {
    hide Told, Outcomes, BooksInv;
  }

  lemma TickFates(c: Core, high: bool, answer: Option<u8>)
    requires Rest(c) && CalmInv(c) && FatesInv(c)
    ensures Ready(c) && FatesInv(IsrTick(c, high, answer))
  {
    hide ArmPending, Sample, Conclude, StepHeld, DrainCompletedRx, Tick, Rest, Base, CalmInv, FatesInv, NoEnd;
    var a, s, k, h := Stages(c, high, answer);
    ArmEndsNothing(c);
    NoEndKeeps(c, a);
    ArmCalm(c);
    ConcludeFates(a, s, high);
    StepHeldBooks(k, answer);
    SameFates(k, h);
    DrainFates(h);
  }

  // ---- Calls ----

  lemma IssuingKeeps(d: Demand, l: Ledger, r: Request)
    requires BooksInv(d, l)
    ensures forall batched: bool ::
              var q := Stamped(l, r, batched); BooksInv(d, Issuing(l, q)) && Own(q, Issuing(l, q).issued)
  {
    hide Ended;
  }

  lemma SubmitFates(c: Core, r: Request)
    requires FatesInv(c)
    ensures FatesInv(SubmitTx(c, r).0) && FatesInv(QueueTx(c, r).0)
  {
    hide Told, Outcomes, Ended, Sendable;
    IssuingKeeps(c.demand, c.ledger, r);
    var q := Stamped(c.ledger, r, true);
    QueueOwn(c.demand, Issuing(c.ledger, q).issued, q);
  }

  lemma StepFates(c: Core, a: Action)
    requires Rest(c) && CalmInv(c) && FatesInv(c) && !a.Cancel?
    ensures Ready(c) && FatesInv(Step(c, a))
  {
    hide IsrTick, PopSessionEventFor, SubmitTx, QueueTx, FatesInv, CalmInv;
    RestIsReady(c);
    match a
    case TickWith(high, answer) =>
      TickFates(c, high, answer);
    case Submit(r) =>
      SubmitFates(c, r);
    case Queue(r) =>
      SubmitFates(c, r);
    case PopEvent(e) =>
      PopKeeps(c, e);
      PopPushes(c, e);
      NoEndHere(c, PopSessionEventFor(c, e).0);
    case Cancel(_) =>
    case _ =>
      NoEndHere(c, Step(c, a));
  }

  lemma NoEndHere(c: Core, r: Core)
    requires FatesInv(c) && r.outbox.log == c.outbox.log && r.ledger == c.ledger
    requires r.demand == c.demand.(batchAborted := r.demand.batchAborted)
    ensures FatesInv(r)
  {
    hide Told, Outcomes, Ended;
  }

  lemma {:induction false} RunFates(c: Core, run: seq<Action>)
    requires Rest(c) && CalmInv(c) && FatesInv(c) && NoCancel(run)
    ensures FatesInv(Exec(c, run))
    decreases |run|
  {
    hide Step, CalmInv, Rest, FatesInv;
    if run != [] {
      StepRests(c, run[0]);
      StepCalm(c, run[0]);
      StepFates(c, run[0]);
      RunFates(Step(c, run[0]), run[1..]);
    }
  }

  lemma NewFates()
    ensures FatesInv(NewCore())
  {
    hide NewPhy;
  }

  /** The place of one request: on its way, or come to one of its ends. */
  ghost predicate InOnePlace(c: Core, t: nat) {
    && InHand(c.demand)[t] + Ended(c.ledger.ended, Delivered)[t] + Ended(c.ledger.ended, Collided)[t]
       + Ended(c.ledger.ended, Voided)[t] + c.ledger.dropped[t] == 1
    && c.ledger.driven[t] <= 1 && c.ledger.restarted[t] <= 1
  }

  /**
   From power-up on, in every run without cancellation: every accepted request is in exactly one
   place, driven out at most once and restarted at most once; none is rejected; and the ends told,
   in order, are the ends the requests came to, each of its kind and under the exchange the request
   was submitted for.
   */
  lemma EveryRequestOnce(run: seq<Action>, t: nat)
    requires NoCancel(run)
    ensures Rest(NewCore())
    ensures var c := Exec(NewCore(), run);
            && (t < c.ledger.nextTag ==> InOnePlace(c, t))
            && c.ledger.rejected == multiset{} && ReportsInv(c) && OutboxInv(c.outbox)
            && Told(c.outbox.log) == Outcomes(c.ledger.ended) && OwnEndings(c.ledger)
  {
    hide Exec, Rest, Told, Outcomes, Ended, NewCore;
    NewBooks();
    NewFates();
    NewCalm();
    RequestsAreConserved(NewCore(), run);
    RunCalm(NewCore(), run);
    RunFates(NewCore(), run);
    var c := Exec(NewCore(), run);
    if t < c.ledger.nextTag {
      OnceFrom(c, t);
    }
  }

  lemma NewCalm()
    ensures CalmInv(NewCore())
  {
  }

  lemma OnceFrom(c: Core, t: nat)
    requires LedgerInv(c) && CalmInv(c) && FatesInv(c) && t < c.ledger.nextTag
    ensures InOnePlace(c, t)
  {
    hide Tags, Ended, Told, Outcomes;
    assert Places(c.demand, c.ledger)[t] == 1;
  }
}
