/**
 The interrupt core (isr.rs, with command.rs, answer.rs, backward_window.rs) as a machine:
 one `Tick` and the calls tasks make between ticks. The parts that only remember what happened
 (`Ledger`, `Windows`, the counters and the wire of `Clock`, the log of `Outbox`, the notes of
 `Tally`, the tags) decide nothing.
 */
module Isr {
  import opened Wrappers
  import opened Bits
  import opened HalfBits
  import opened Fsm
  import opened Manchester
  import opened PhaseSearch
  import opened RxDecode

  const RX_RING_CAP := 8
  const SESSION_RING_CAP := 8
  const TX_RING_CAP := 5

  // Table 20 of IEC 62386-101, in ticks
  const BACKWARD_MIN_US := 5_500
  const BACKWARD_MAX_US := 10_500
  const BACKWARD_TARGET_US := 6_500
  const ANSWER_ARM_TARGET_IDLE_TICKS := BACKWARD_TARGET_US / PHY_TICK_US - TX_ARM_LEAD_TICKS
  const ANSWER_ARM_MAX_IDLE_TICKS := BACKWARD_MAX_US / PHY_TICK_US - TX_ARM_LEAD_TICKS
  const BACKWARD_RECEIVE_MIN_TICKS := (2_400 + PHY_TICK_US - 1) / PHY_TICK_US
  const RX_START_STAMP_LAG_TICKS := RX_START_DEBOUNCE_TICKS
  const BACKWARD_DATA_BITS := 8

  const EXCHANGE_LIMIT := 0x1_0000_0000

  // ---- Entities ----

  /** A forward frame a task asked for; `tag` tells equal requests apart. */
  datatype Request = Request(
    tag: nat,
    exchange: nat,
    batched: bool,
    frame: Frame,
    expects: bool,
    minIdle: nat,
    restartGate: nat)

  datatype RxEvent = RxEvent(capture: Capture, epoch: nat, tick: nat, sniffSeq: nat, decode: IsrDecode)

  datatype SessionEvent =
    | TxComplete(preIdle: nat)
    | TxCollision
    | TxRejected
    | TxVoided
    | RxComplete(ev: RxEvent)
    | ForeignForward(preIdleTicks: nat, sampleCount: nat)

  /** Requests on their way: the command cell, the batch queue, the one taken up. */
  datatype Demand = Demand(cell: Option<Request>, queue: seq<Request>, pending: Option<Request>, batchAborted: bool)

  /** How a request that was reported came to its end. */
  datatype Fate = Delivered | Collided | Voided

  datatype Ending = Ending(tag: nat, exchange: nat, fate: Fate)

  /**
   What became of the requests, by tag. `issued` has every request accepted, `armings` every one put
   on the wire, and `ended` every one that came to an end there, oldest first.
   */
  datatype Ledger = Ledger(
    nextTag: nat,
    issued: seq<Request>,
    armings: seq<Request>,
    ended: seq<Ending>,
    armed: multiset<nat>,
    completed: multiset<nat>,
    collided: multiset<nat>,
    voided: multiset<nat>,
    rejected: multiset<nat>,
    dropped: multiset<nat>,
    cancelled: multiset<nat>,
    restarted: multiset<nat>,
    driven: multiset<nat>)

  datatype Control = Control(requested: nat, acknowledged: nat, active: bool)

  /** `window` is the exchange whose answer is awaited, zero when none is. */
  datatype Session = Session(exchangeEpoch: nat, activeEpoch: nat, expects: bool, isAnswer: bool, window: nat, rxStarted: nat)

  /** The windows opened so far, and which of them got an event. */
  datatype Windows = Windows(openings: seq<nat>, answered: seq<(nat, nat)>)

  /** One tick on the wire: the level sampled in it and the level driven from it on. */
  datatype Instant = Instant(high: bool, out: bool)

  /**
   Wire ticks, the last forward edge, the start of the last reception, the bus epoch with what it
   counts, every tick so far, and the edge of every forward capture.
   */
  datatype Clock = Clock(
    now: nat, edge: int, rxStart: nat, busEpoch: nat, captured: nat, sent: int, wire: seq<Instant>, edges: seq<int>)

  /** An answer staged for a query; `captured`, `sent` and `edge` are the counts and the edge at that query. */
  datatype Staged = Staged(epoch: nat, frame: Frame, captured: nat, sent: int, edge: int)

  datatype Held = Held(ev: RxEvent, search: Search, captured: nat, sent: int, edge: int)

  datatype Sniffer = Sniffer(seqNo: nat, held: Option<Held>, overrun: nat, ring: seq<RxEvent>, dropped: nat, pushed: seq<RxEvent>)

  /** The ring tasks read, and every event ever pushed with the exchange it is stamped with. */
  datatype Outbox = Outbox(ring: seq<(nat, SessionEvent)>, dropped: nat, taken: nat, log: seq<(nat, SessionEvent)>)

  /** An answer armed `since` ticks after an edge; the edge and the traffic counts of its query, and the counts of now. */
  datatype ArmNote = ArmNote(
    since: nat, tick: nat, edge: int, frame: Frame, queryCaptured: nat, querySent: int, captured: nat, sent: int)

  /** Counts of answers by how they went, and a note of each arming. */
  datatype Tally = Tally(sent: nat, stale: nat, expired: nat, late: nat, rejected: nat, collided: nat, overBackward: nat,
                         arms: seq<ArmNote>)

  datatype Core = Core(
    phy: Phy,
    demand: Demand,
    ledger: Ledger,
    control: Control,
    session: Session,
    windows: Windows,
    clock: Clock,
    staged: Option<Staged>,
    sniffer: Sniffer,
    outbox: Outbox,
    tally: Tally)

  function NewCore(): Core {
    Core(NewPhy(), Demand(None, [], None, false),
         Ledger(0, [], [], [], multiset{}, multiset{}, multiset{}, multiset{}, multiset{}, multiset{}, multiset{}, multiset{}, multiset{}),
         Control(0, 0, false), Session(0, 0, false, false, 0, 0), Windows([], []), Clock(0, 0, 0, 0, 0, 0, [], []), None,
         Sniffer(0, None, 0, [], 0, []), Outbox([], 0, 0, []), Tally(0, 0, 0, 0, 0, 0, 0, []))
  }

  // ---- Small pieces ----

  function Tags(s: seq<Request>): multiset<nat> {
    if s == [] then multiset{} else multiset{s[0].tag} + Tags(s[1..])
  }

  function TagOf(r: Option<Request>): multiset<nat> {
    if r.Some? then multiset{r.value.tag} else multiset{}
  }

  /** A ring of capacity `cap` holds one item less. */
  function Push<T>(ring: seq<T>, cap: nat, item: T): seq<T> {
    if |ring| + 1 < cap then ring + [item] else ring
  }

  function PushEvent(o: Outbox, exchange: nat, event: SessionEvent): Outbox {
    var fits := |o.ring| + 1 < SESSION_RING_CAP;
    o.(ring := Push(o.ring, SESSION_RING_CAP, (exchange, event)), dropped := if fits then o.dropped else o.dropped + 1,
       log := o.log + [(exchange, event)])
  }

  function PushRing(s: Sniffer, ev: RxEvent): Sniffer {
    var fits := |s.ring| + 1 < RX_RING_CAP;
    s.(ring := Push(s.ring, RX_RING_CAP, ev), dropped := if fits then s.dropped else s.dropped + 1, pushed := s.pushed + [ev])
  }

  /** The frame of an 8-bit answer, as the encoder packs it. */
  function EncodedFrame(value: u32, n: nat): (f: Frame)
    ensures |f.data| == DATA_LEN && f.length == 2 * (n + 3)
  {
    var h := FrameHalfBits(value, n);
    Frame(seq(DATA_LEN, j requires 0 <= j < DATA_LEN =>
            Folded(seq(8, i requires 0 <= i < 8 => 8 * j + i < |h| && h[8 * j + i]))), |h|)
  }

  // ---- Cancellation ----

  /** A forward frame of this exchange is on the wire. */
  predicate OnWire(c: Core, exchange: nat) {
    c.phy.busy && !c.session.isAnswer && c.session.activeEpoch == exchange
  }

  function ApplyRequestedCancel(c: Core): (r: Core)
    ensures r.phy == c.phy && r.staged == c.staged && r.sniffer == c.sniffer && (FramesFit(c.demand) ==> FramesFit(r.demand))
  {
    var raw := c.control.requested;
    if raw == 0 then c
    else
      var active := OnWire(c, raw);
      var kept := if active then c.demand.pending else None;
      var gone := TagOf(c.demand.cell) + Tags(c.demand.queue) + (if active then multiset{} else TagOf(c.demand.pending));
      var s := if c.session.activeEpoch == raw then c.session.(expects := false) else c.session;
      c.(demand := Demand(None, [], kept, c.demand.batchAborted),
         ledger := c.ledger.(cancelled := c.ledger.cancelled + gone),
         control := Control(0, raw, active),
         session := if s.window == raw then s.(window := 0, rxStarted := 0) else s)
  }

  // ---- Arming an answer ----

  datatype AnswerGate = Hold | Arm(late: bool) | Expired

  function GateAt(idle: nat): AnswerGate {
    if idle < ANSWER_ARM_TARGET_IDLE_TICKS then Hold
    else if idle <= ANSWER_ARM_MAX_IDLE_TICKS then Arm(idle > ANSWER_ARM_TARGET_IDLE_TICKS)
    else Expired
  }

  datatype LineUnderAnswer = LineIdle | LineBackward | LineBusy
  datatype TryArmAnswer = NotStaged | HeldBack | Armed

  function TicksSinceForwardEdge(k: Clock): nat {
    var elapsed := k.now - k.edge;
    if elapsed < 0 || elapsed > 0xFFFF then 0xFFFF else elapsed
  }

  predicate ReceptionBeganInTheBackwardWindow(k: Clock) {
    var since := k.rxStart - k.edge;
    since < 0 || since - RX_START_STAMP_LAG_TICKS >= BACKWARD_RECEIVE_MIN_TICKS
  }

  function LineUnder(c: Core): LineUnderAnswer {
    if c.phy.lowRun >= LINE_HELD_TICKS then LineBusy
    else if c.phy.state.Idle? then (if LineDebouncing(c.phy) then LineBackward else LineIdle)
    else if c.phy.state.Rx? && ReceptionBeganInTheBackwardWindow(c.clock) then LineBackward
    else LineBusy
  }

  function NoteOf(s: Staged, k: Clock, since: nat): ArmNote {
    ArmNote(since, k.now, s.edge, s.frame, s.captured, s.sent, k.captured, k.sent)
  }

  function FireStagedAnswer(c: Core, since: nat, late: bool, overBackward: bool): (r: Core)
    requires WellFormed(c.phy) && c.staged.Some? && |c.staged.value.frame.data| == DATA_LEN
    ensures WellFormed(r.phy) && r.sniffer == c.sniffer
  {
    var f := c.staged.value.frame;
    var started := CanStartAnswer(c.phy, f);
    c.(phy := if started then LoadTx(c.phy, f, true) else c.phy,
       staged := None,
       session := c.session.(isAnswer := started, expects := false),
       tally := c.tally.(late := if late then c.tally.late + 1 else c.tally.late,
                         rejected := if started then c.tally.rejected else c.tally.rejected + 1,
                         overBackward := if started && overBackward then c.tally.overBackward + 1 else c.tally.overBackward,
                         arms := if started then c.tally.arms + [NoteOf(c.staged.value, c.clock, since)] else c.tally.arms))
  }

  predicate StagedOk(s: Option<Staged>) {
    s.Some? ==> Sendable(s.value.frame)
  }

  function TryArm(c: Core): (r: (Core, TryArmAnswer))
    requires WellFormed(c.phy) && StagedOk(c.staged)
    ensures WellFormed(r.0.phy) && r.0.sniffer == c.sniffer && r.0.demand == c.demand
  {
    if c.staged.None? then (c, NotStaged)
    else if c.staged.value.epoch != c.clock.busEpoch then
      (c.(staged := None, tally := c.tally.(stale := c.tally.stale + 1)), NotStaged)
    else
      var since := TicksSinceForwardEdge(c.clock);
      match GateAt(since)
      case Hold => (c, HeldBack)
      case Expired => (c.(staged := None, tally := c.tally.(expired := c.tally.expired + 1)), NotStaged)
      case Arm(late) =>
        match LineUnder(c)
        case LineBusy => (c, HeldBack)
        case LineIdle => (FireStagedAnswer(c, since, late, false), TryArmAnswer.Armed)
        case LineBackward => (FireStagedAnswer(c, since, late, true), TryArmAnswer.Armed)
  }

  // ---- Arming a forward frame ----

  /** The queue goes before the cell. */
  function TakeUp(d: Demand): Demand {
    if d.pending.Some? then d
    else if d.queue != [] then d.(pending := Some(d.queue[0]), queue := d.queue[1..])
    else d.(pending := d.cell, cell := None)
  }

  predicate Fits(r: Option<Request>) {
    r.Some? ==> |r.value.frame.data| == DATA_LEN
  }

  /** Every frame buffer has its fixed size. */
  predicate FramesFit(d: Demand) {
    Fits(d.cell) && Fits(d.pending) && forall i | 0 <= i < |d.queue| :: |d.queue[i].frame.data| == DATA_LEN
  }

  function Arming(l: Ledger, r: Request): Ledger {
    l.(armed := l.armed + multiset{r.tag}, armings := l.armings + [r])
  }

  /** The request taken up goes onto the wire, or is rejected there. */
  function StartTaken(c: Core): (r: Core)
    requires WellFormed(c.phy) && c.demand.pending.Some? && |c.demand.pending.value.frame.data| == DATA_LEN
    ensures WellFormed(r.phy) && r.sniffer == c.sniffer
  {
    var r := c.demand.pending.value;
    var s := c.session.(activeEpoch := r.exchange, expects := r.expects);
    if CanStartTx(c.phy, r.frame) then
      c.(phy := LoadTx(c.phy, r.frame, false), session := s,
         ledger := Arming(c.ledger, r),
         clock := c.clock.(busEpoch := (c.clock.busEpoch + 1) % 0x100, sent := c.clock.sent + 1))
    else
      c.(demand := c.demand.(pending := None), session := s.(expects := false),
         ledger := c.ledger.(rejected := c.ledger.rejected + multiset{r.tag}),
         outbox := PushEvent(c.outbox, r.exchange, TxRejected))
  }

  function ArmForward(c: Core): (r: Core)
    requires WellFormed(c.phy) && FramesFit(c.demand)
    ensures WellFormed(r.phy) && r.sniffer == c.sniffer
  {
    var d := TakeUp(c.demand);
    if d.pending.None? || c.phy.idleCount < d.pending.value.minIdle then
      c.(demand := d)
    else
      StartTaken(c.(demand := d))
  }

  /** All buffers have their fixed sizes. */
  predicate Armable(c: Core) {
    WellFormed(c.phy) && StagedOk(c.staged) && FramesFit(c.demand)
  }

  function ArmIdle(c: Core): (r: Core)
    requires Armable(c)
    ensures WellFormed(r.phy) && r.sniffer == c.sniffer
  {
    var (a, tried) := TryArm(c);
    if !tried.NotStaged? || a.session.window != 0 || !a.phy.state.Idle? || LineDebouncing(a.phy) then a else ArmForward(a)
  }

  function ArmPending(c: Core): (r: Core)
    requires Armable(c)
    ensures WellFormed(r.phy) && r.sniffer == c.sniffer
  {
    var k := ApplyRequestedCancel(c);
    if k.phy.busy then k else ArmIdle(k)
  }

  // ---- The end of a transmission ----

  /** The books when a request, if there is one, comes to its end. */
  function Closing(l: Ledger, r: Option<Request>, fate: Fate): Ledger {
    if r.None? then l
    else
      var k := l.(ended := l.ended + [Ending(r.value.tag, r.value.exchange, fate)]);
      match fate
      case Delivered => k.(completed := k.completed + multiset{r.value.tag})
      case Collided => k.(collided := k.collided + multiset{r.value.tag})
      case Voided => k.(voided := k.voided + multiset{r.value.tag})
  }

  function AbortBatchTail(c: Core): Core {
    var held := c.demand.pending;
    var aborted := c.demand.queue != [] || (held.Some? && held.value.batched);
    c.(demand := Demand(c.demand.cell, [], None, c.demand.batchAborted || aborted),
       ledger := Closing(c.ledger, held, Voided).(dropped := c.ledger.dropped + Tags(c.demand.queue)),
       outbox := if held.Some? then PushEvent(c.outbox, held.value.exchange, TxVoided) else c.outbox)
  }

  function ReportAnswer(c: Core, poll: TxPoll): Core {
    var t := c.tally;
    c.(tally := if poll.Collision? then t.(collided := t.collided + 1)
                else if poll.Yielded? then t.(stale := t.stale + 1)
                else t.(sent := t.sent + 1))
  }

  function StepBack(k: Clock): Clock {
    k.(busEpoch := (k.busEpoch + 0xFF) % 0x100, sent := k.sent - 1)
  }

  /** The frame of a cancelled exchange has left the wire. */
  function FinishCancelled(c: Core, poll: TxPoll): Core {
    c.(control := c.control.(active := false),
       clock := if poll.Yielded? then StepBack(c.clock) else c.clock,
       ledger := c.ledger.(cancelled := c.ledger.cancelled + TagOf(c.demand.pending)),
       demand := c.demand.(pending := None),
       session := c.session.(expects := false, window := 0, rxStarted := 0))
  }

  function ReportSent(c: Core): Core {
    var open := c.session.expects;
    c.(ledger := Closing(c.ledger, c.demand.pending, Delivered),
       demand := c.demand.(pending := None),
       session := c.session.(expects := false, window := if open then c.session.activeEpoch else c.session.window),
       windows := if open then c.windows.(openings := c.windows.openings + [c.session.activeEpoch]) else c.windows,
       outbox := PushEvent(c.outbox, c.session.activeEpoch, TxComplete(c.phy.tx.preIdle)))
  }

  function ReportCollision(c: Core): Core {
    var k := c.(ledger := Closing(c.ledger, c.demand.pending, Collided),
                demand := c.demand.(pending := None),
                session := c.session.(expects := false, window := 0));
    var a := AbortBatchTail(k);
    a.(outbox := PushEvent(a.outbox, a.session.activeEpoch, TxCollision))
  }

  predicate CanRestart(d: Demand) {
    d.pending.Some? && d.pending.value.restartGate != 0
  }

  /** A frame is restarted at most once: its gate is used up. */
  function Restart(c: Core): Core
    requires CanRestart(c.demand)
  {
    var r := c.demand.pending.value;
    c.(demand := c.demand.(pending := Some(r.(minIdle := r.restartGate, restartGate := 0))),
       ledger := c.ledger.(restarted := c.ledger.restarted + multiset{r.tag}))
  }

  function ReportCollisionOrRestart(c: Core): Core {
    var idle := c.phy.tx.idleAfterBreak;
    var k := c.(phy := c.phy.(tx := c.phy.tx.(idleAfterBreak := false)));
    if idle && CanRestart(k.demand) then Restart(k) else ReportCollision(k)
  }

  function ReportForward(c: Core, poll: TxPoll): Core {
    if c.control.active then FinishCancelled(c, poll)
    else
      match poll
      case Sent => ReportSent(c)
      case Collision => ReportCollisionOrRestart(c)
      case Yielded => c.(session := c.session.(expects := false), clock := StepBack(c.clock))
      case Transmitting => c
  }

  function ReportCompletion(c: Core): (r: Core)
    ensures r.sniffer == c.sniffer
  {
    var (p, poll) := PollTx(c.phy);
    var k := c.(phy := p);
    if k.session.isAnswer then ReportAnswer(k.(session := k.session.(isAnswer := false)), poll) else ReportForward(k, poll)
  }

  // ---- Captures ----

  function EventWindow(ev: RxEvent): (w: SampleWindow)
    requires |ev.capture.samples| == SAMPLE_BUF_LEN
    ensures WindowOk(w)
  {
    WindowOf(ev.capture.samples, ev.capture.sampleCount)
  }

  predicate HeldOk(s: Sniffer) {
    s.held.Some? ==> |s.held.value.ev.capture.samples| == SAMPLE_BUF_LEN
  }

  /** The answer cell takes one answer at a time. */
  function Stage(staged: Option<Staged>, h: Held, answer: Option<u8>): Option<Staged> {
    if staged.None? && answer.Some? then
      Some(Staged(h.ev.epoch, EncodedFrame(answer.value, BACKWARD_DATA_BITS), h.captured, h.sent, h.edge))
    else staged
  }

  /** One phase of the held capture; `answer` is what the answer table has for it. */
  function StepHeld(c: Core, answer: Option<u8>): Core
    requires HeldOk(c.sniffer)
  {
    if c.sniffer.held.None? then c
    else
      var h := c.sniffer.held.value;
      var (search, outcome) := SearchStep(h.search, EventWindow(h.ev));
      match outcome
      case Searching => c.(sniffer := c.sniffer.(held := Some(h.(search := search))))
      case Done(found) =>
        var asked := found.Some? && found.value.bitLen == FORWARD24_BITS;
        c.(sniffer := PushRing(c.sniffer.(held := None), h.ev.(decode := Decoded(found))),
           staged := if asked then Stage(c.staged, h, answer) else c.staged)
  }

  function NewlyHeld(ev: RxEvent, k: Clock): Held {
    Held(ev, NewSearch(SNIFFED_BIT_LENGTHS), k.captured, k.sent, k.edge)
  }

  function PushSniffer(c: Core, ev: RxEvent): Core {
    var s := c.sniffer;
    var t := if s.held.Some? then PushRing(s.(held := None, overrun := s.overrun + 1), s.held.value.ev) else s;
    var e := ev.(sniffSeq := t.seqNo + 1);
    var u := t.(seqNo := t.seqNo + 1);
    c.(sniffer := if IsForward24Length(ev.capture.sampleCount) then
                    u.(held := Some(NewlyHeld(e, c.clock)))
                  else PushRing(u, e))
  }

  /** The window, if one is open, gets its one event. */
  function CloseWindowWith(c: Core, event: SessionEvent): Core {
    var exchange := c.session.window;
    var k := c.(session := c.session.(window := 0, rxStarted := 0));
    if exchange == 0 then k
    else
      k.(outbox := PushEvent(k.outbox, exchange, event),
         windows := k.windows.(answered := k.windows.answered + [(|k.windows.openings|, exchange)]))
  }

  function RouteBackward(c: Core, ev: RxEvent): Core {
    var k := CloseWindowWith(c, RxComplete(ev));
    if c.session.window != 0 then k else PushSniffer(k, ev)
  }

  function RouteForward(c: Core, ev: RxEvent): Core {
    PushSniffer(CloseWindowWith(AbortBatchTail(c), ForeignForward(ev.capture.preIdle, ev.capture.sampleCount)), ev)
  }

  function NoteForwardCapture(c: Core): Core {
    var edge := c.clock.now - c.phy.idleCount;
    c.(clock := c.clock.(edge := edge, busEpoch := (c.clock.busEpoch + 1) % 0x100, captured := c.clock.captured + 1,
                         edges := c.clock.edges + [edge]))
  }

  function DrainCompletedRx(c: Core): Core {
    var (p, taken) := TakeCompleted(c.phy);
    if taken.None? then c
    else
      var k := c.(phy := p);
      match LengthClass(taken.value.sampleCount)
      case Forward =>
        var n := NoteForwardCapture(k);
        RouteForward(n, RxEvent(taken.value, n.clock.busEpoch, n.clock.now, 0, NotDecoded))
      case Backward => RouteBackward(k, RxEvent(taken.value, k.clock.busEpoch, k.clock.now, 0, NotDecoded))
  }

  // ---- The tick ----

  function Publish(c: Core): Core {
    var s := c.session;
    c.(clock := c.clock.(now := c.clock.now + 1),
       session := if s.window != 0 && c.phy.rx.state.Receiving? then s.(rxStarted := 1 + c.phy.rx.preIdle) else s)
  }

  function NoteRxStart(c: Core, before: RxState): Core {
    if !before.Receiving? && c.phy.rx.state.Receiving? then c.(clock := c.clock.(rxStart := c.clock.now)) else c
  }

  /** The forward frame on the wire is at its last half-bit, and was not before this tick. */
  predicate AtLastHalfBit(c: Core) {
    c.phy.busy && !c.session.isAnswer && c.phy.state.Tx? && c.phy.tx.count >= c.phy.tx.frame.length
  }

  function NoteDriven(c: Core, was: bool): Core {
    if AtLastHalfBit(c) && !was then c.(ledger := c.ledger.(driven := c.ledger.driven + TagOf(c.demand.pending))) else c
  }

  function NoteWire(c: Core, high: bool): Core {
    c.(clock := c.clock.(wire := c.clock.wire + [Instant(high, c.phy.out)]))
  }

  /** The transceiver's own tick and what is read off it. */
  function Sample(c: Core, high: bool, before: RxState): (r: Core)
    requires WellFormed(c.phy)
    ensures WellFormed(r.phy) && r.sniffer == c.sniffer
  {
    NoteRxStart(Publish(NoteDriven(NoteWire(c.(phy := Tick(c.phy, high)), high), AtLastHalfBit(c))), before)
  }

  function Conclude(c: Core, wasBusy: bool): (r: Core)
    ensures r.sniffer == c.sniffer
  {
    if wasBusy && !c.phy.busy then ReportCompletion(c) else c
  }

  predicate Ready(c: Core) {
    Armable(c) && HeldOk(c.sniffer)
  }

  /** One timer interrupt; `answer` is what the table would say of the capture being decoded. */
  function IsrTick(c: Core, high: bool, answer: Option<u8>): Core
    requires Ready(c)
  {
    var a := ArmPending(c);
    var s := Sample(a, high, c.phy.rx.state);
    DrainCompletedRx(StepHeld(Conclude(s, a.phy.busy), answer))
  }

  // ---- Calls from tasks ----

  function Issuing(l: Ledger, r: Request): Ledger {
    l.(nextTag := l.nextTag + 1, issued := l.issued + [r])
  }

  /** A request takes the next tag. */
  function Stamped(l: Ledger, r: Request, batched: bool): Request {
    r.(tag := l.nextTag, batched := batched)
  }

  function SubmitTx(c: Core, r: Request): (Core, bool) {
    if c.control.requested != 0 || !Sendable(r.frame) || c.demand.cell.Some? then (c, false)
    else
      var q := Stamped(c.ledger, r, false);
      (c.(demand := c.demand.(cell := Some(q)), ledger := Issuing(c.ledger, q)), true)
  }

  function QueueTx(c: Core, r: Request): (Core, bool) {
    if c.control.requested != 0 || !Sendable(r.frame) || |c.demand.queue| + 1 >= TX_RING_CAP then (c, false)
    else
      var q := Stamped(c.ledger, r, true);
      (c.(demand := c.demand.(queue := c.demand.queue + [q]), ledger := Issuing(c.ledger, q)), true)
  }

  function CancelExchange(c: Core, exchange: nat): Core {
    c.(control := c.control.(requested := exchange))
  }

  /** Zero is no exchange. */
  function NextExchange(id: nat): nat {
    if (id + 1) % EXCHANGE_LIMIT == 0 then 1 else (id + 1) % EXCHANGE_LIMIT
  }

  function BeginExchange(c: Core): (Core, nat) {
    var id := NextExchange(c.session.exchangeEpoch);
    (c.(session := c.session.(exchangeEpoch := id)), id)
  }

  function CloseBackwardWindow(c: Core): (Core, Option<nat>) {
    var s := c.session;
    if s.window != s.exchangeEpoch then (c, None)
    else (c.(session := s.(window := 0, rxStarted := 0)), if s.rxStarted == 0 then None else Some(s.rxStarted - 1))
  }

  /** Events of other exchanges are passed over. */
  function PopSessionEventFor(c: Core, exchange: nat): (Core, Option<SessionEvent>)
    decreases |c.outbox.ring|
  {
    if c.outbox.ring == [] then (c, None)
    else
      var (stamp, event) := c.outbox.ring[0];
      var k := c.(outbox := c.outbox.(ring := c.outbox.ring[1..], taken := c.outbox.taken + 1));
      if stamp == exchange then (k, Some(event)) else PopSessionEventFor(k, exchange)
  }

  function PopRx(c: Core): (Core, Option<RxEvent>) {
    if c.sniffer.ring == [] then (c, None)
    else (c.(sniffer := c.sniffer.(ring := c.sniffer.ring[1..])), Some(c.sniffer.ring[0]))
  }

  function TakeBatchAborted(c: Core): (Core, bool) {
    (c.(demand := c.demand.(batchAborted := false)), c.demand.batchAborted)
  }
}
