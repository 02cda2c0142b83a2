/**
 The bit-bang transceiver of one DALI line (fsm.rs): a state that one timer tick advances.
 A line level is true when the line is high, that is recessive.
 */
module Fsm {
  import opened Wrappers
  import opened Bits
  import opened HalfBits

  const SAMPLE_BUF_LEN := 64
  const MAX_RX_IDX := SAMPLE_BUF_LEN - 1
  const RX_IDLE_LINE_HIGH_TICKS := 16
  const RX_START_DEBOUNCE_TICKS := 2
  const TX_HALF_BIT_TICKS := 4
  const TX_ARM_LEAD_TICKS := 3
  const LINE_HELD_TICKS := 24
  const PHY_TICK_US := 104
  const COLLISION_BREAK_MIN_US := 1200
  const COLLISION_BREAK_TICKS := (COLLISION_BREAK_MIN_US + PHY_TICK_US - 1) / PHY_TICK_US
  const COLLISION_CHECK_TICK := COLLISION_BREAK_TICKS + 2
  const BACKWARD_FRAME_HALF_BITS := 22

  datatype BusState = Idle | Rx | Tx | CollisionTx
  datatype RxState = Empty | Receiving | Completed
  datatype TxPoll = Sent | Collision | Transmitting | Yielded
  datatype CollisionPolicy = Auto | Off | On

  /** A completed reception: a byte holds eight ticks. */
  datatype Capture = Capture(samples: seq<bv8>, sampleCount: nat, preIdle: nat)

  /** A frame ready to send. */
  datatype Frame = Frame(data: seq<bv8>, length: nat)

  /** The receiving half: the capture under way and the last one completed. */
  datatype Receiver = Receiver(
    state: RxState,
    data: seq<bv8>,
    pos: nat,
    byte: bv8,
    bitCount: nat,
    idle: nat,
    preIdle: nat,
    last: Capture)

  /** The sending half: the frame, the half-bit and the tick slot it is at, and how it went. */
  datatype Sender = Sender(
    frame: Frame,
    count: nat,
    slot: nat,
    high: bool,
    collision: nat,
    idleAfterBreak: bool,
    armed: nat,
    yielded: bool,
    answer: bool,
    preIdle: nat)

  /** `out` is what the transceiver drives, `busy` the flag other contexts read. */
  datatype Phy = Phy(
    out: bool,
    busy: bool,
    state: BusState,
    idleCount: nat,
    highRun: nat,
    lowRun: nat,
    debounce: nat,
    policy: CollisionPolicy,
    rx: Receiver,
    tx: Sender)

  function SatAdd(x: nat, limit: nat): nat {
    if x < limit then x + 1 else limit
  }

  function SatDec(x: nat): nat {
    if x == 0 then 0 else x - 1
  }

  /** The buffers have their fixed sizes. */
  predicate WellFormed(p: Phy) {
    |p.rx.data| == SAMPLE_BUF_LEN && |p.tx.frame.data| == DATA_LEN
  }

  function SetBusIdle(p: Phy): Phy {
    p.(out := true, idleCount := p.highRun, debounce := 0, state := Idle, busy := false)
  }

  // ---- Receiving ----

  /** Store a full byte at the write position, which stops at the last slot. */
  function StoreByte(rx: Receiver): (r: Receiver)
    requires |rx.data| == SAMPLE_BUF_LEN
    ensures |r.data| == SAMPLE_BUF_LEN
  {
    var at := if rx.pos < MAX_RX_IDX then rx.pos else MAX_RX_IDX;
    rx.(data := rx.data[at := rx.byte], pos := if rx.pos + 1 > MAX_RX_IDX then MAX_RX_IDX else rx.pos + 1, bitCount := 0)
  }

  /** Take one level into the capture. */
  function Record(rx: Receiver, high: bool): (r: Receiver)
    requires |rx.data| == SAMPLE_BUF_LEN
    ensures |r.data| == SAMPLE_BUF_LEN
  {
    var q := rx.(byte := ShiftIn(rx.byte, high), bitCount := (rx.bitCount + 1) % 0x100);
    var s := if q.bitCount == 8 then StoreByte(q) else q;
    s.(idle := if high then SatAdd(s.idle, 0xFF) else 0)
  }

  /** Close the capture with a recessive byte and publish it. */
  function Finish(rx: Receiver): (r: Receiver)
    requires |rx.data| == SAMPLE_BUF_LEN
    ensures |r.data| == SAMPLE_BUF_LEN
  {
    var data := if rx.pos < SAMPLE_BUF_LEN then rx.data[rx.pos := 0xFF] else rx.data;
    var pos := SatAdd(rx.pos, 0xFFFF);
    rx.(data := data, pos := pos, state := Completed, last := Capture(data, pos, rx.preIdle))
  }

  function TickRx(p: Phy, high: bool): (r: Phy)
    requires WellFormed(p)
    ensures WellFormed(r)
  {
    var rx := Record(p.rx, high);
    if high && rx.idle >= RX_IDLE_LINE_HIGH_TICKS then SetBusIdle(p).(rx := Finish(rx)) else p.(rx := rx)
  }

  function EnterRx(p: Phy): Phy {
    p.(state := Rx,
       rx := p.rx.(preIdle := if p.idleCount > 0xFF then 0xFF else p.idleCount,
                   pos := 0, bitCount := 0, idle := 0, byte := 0, state := Receiving))
  }

  /** The ticks of a debounced start, replayed into the capture. */
  function ReplayLow(p: Phy, ticks: nat): (r: Phy)
    requires WellFormed(p)
    ensures WellFormed(r)
    decreases ticks
  {
    if ticks == 0 then p else ReplayLow(TickRx(p, false), ticks - 1)
  }

  function TickIdle(p: Phy, high: bool): (r: Phy)
    requires WellFormed(p)
    ensures WellFormed(r)
  {
    if high then p.(debounce := 0, idleCount := SatAdd(p.idleCount, 0xFFFF))
    else
      var q := p.(debounce := SatAdd(p.debounce, 0xFF));
      if q.debounce >= RX_START_DEBOUNCE_TICKS then ReplayLow(EnterRx(q), q.debounce) else q
  }

  // ---- Sending ----

  function TickTxArmed(p: Phy, high: bool): (r: Phy)
    requires WellFormed(p)
    ensures WellFormed(r)
  {
    if !high && !p.tx.answer then TickIdle(SetBusIdle(p.(tx := p.tx.(yielded := true, armed := 0))), high)
    else p.(tx := p.tx.(armed := SatDec(p.tx.armed)))
  }

  predicate CollisionDetected(p: Phy, high: bool) {
    && (p.policy.On? || (p.policy.Auto? && p.tx.frame.length != BACKWARD_FRAME_HALF_BITS))
    && p.tx.high && !high && (p.tx.slot == 1 || p.tx.slot == 2)
  }

  function EnterCollisionTx(p: Phy): Phy {
    p.(state := CollisionTx, tx := p.tx.(collision := SatAdd(p.tx.collision, 0xFF), slot := 0, idleAfterBreak := false))
  }

  /** Put the next half-bit on the line. */
  function DriveHalfBit(p: Phy): (r: Phy)
    requires WellFormed(p) && p.tx.count / 8 < DATA_LEN
    ensures WellFormed(r)
  {
    var dominant := Dominant(p.tx.frame.data, p.tx.count);
    p.(out := !dominant, tx := p.tx.(high := !dominant, count := (p.tx.count + 1) % 0x100, slot := TX_HALF_BIT_TICKS))
  }

  function TickTx(p: Phy, high: bool): (r: Phy)
    requires WellFormed(p)
    ensures WellFormed(r)
  {
    if p.tx.armed != 0 then TickTxArmed(p, high)
    else if p.tx.count >= p.tx.frame.length then SetBusIdle(p)
    else if CollisionDetected(p, high) then EnterCollisionTx(p)
    else if p.tx.slot == 0 && p.tx.count / 8 >= DATA_LEN then SetBusIdle(p)
    else
      var q := if p.tx.slot == 0 then DriveHalfBit(p) else p;
      q.(tx := q.tx.(slot := SatDec(q.tx.slot)))
  }

  function TickCollisionTx(p: Phy, high: bool): (r: Phy)
    requires WellFormed(p)
    ensures WellFormed(r)
  {
    var slot := (p.tx.slot + 1) % 0x100;
    if slot <= COLLISION_BREAK_TICKS then p.(out := false, tx := p.tx.(slot := slot))
    else if slot < COLLISION_CHECK_TICK then p.(out := true, tx := p.tx.(slot := slot))
    else
      var s := SetBusIdle(p.(tx := p.tx.(slot := slot, idleAfterBreak := high)));
      if high then s else TickIdle(s, high)
  }

  // ---- The tick ----

  function CountRuns(p: Phy, high: bool): Phy {
    p.(lowRun := if high then 0 else SatAdd(p.lowRun, 0xFFFF), highRun := if high then SatAdd(p.highRun, 0xFFFF) else 0)
  }

  /** One timer tick with the line sampled at `high`. */
  function Tick(p: Phy, high: bool): (r: Phy)
    requires WellFormed(p)
    ensures WellFormed(r)
  {
    var q := CountRuns(p, high);
    match q.state
    case Idle => TickIdle(q, high)
    case Rx => TickRx(q, high)
    case Tx => TickTx(q, high)
    case CollisionTx => TickCollisionTx(q, high)
  }

  /** A run of ticks over the sampled levels. */
  function Ticks(p: Phy, line: seq<bool>): (r: Phy)
    requires WellFormed(p)
    ensures WellFormed(r)
  {
    if line == [] then p else Tick(Ticks(p, line[..|line| - 1]), line[|line| - 1])
  }

  // ---- Calls between ticks ----

  predicate Sendable(f: Frame) {
    |f.data| == DATA_LEN && 0 < f.length <= MAX_DATA_HALF_BITS
  }

  function LoadTx(p: Phy, f: Frame, answer: bool): (r: Phy)
    requires |f.data| == DATA_LEN && |p.rx.data| == SAMPLE_BUF_LEN
    ensures WellFormed(r)
  {
    p.(state := Tx, busy := true, rx := p.rx.(state := Empty),
       tx := Sender(f, 0, 0, p.tx.high, 0, false, TX_ARM_LEAD_TICKS, false, answer, p.idleCount))
  }

  predicate CanStartTx(p: Phy, f: Frame) {
    p.state.Idle? && Sendable(f)
  }

  predicate CanStartAnswer(p: Phy, f: Frame) {
    (p.state.Idle? || p.state.Rx?) && Sendable(f)
  }

  /** Polling consumes the yield or the collision it reports. */
  function PollTx(p: Phy): (Phy, TxPoll) {
    if p.tx.yielded then (p.(tx := p.tx.(yielded := false)), Yielded)
    else if p.tx.collision != 0 then (p.(tx := p.tx.(collision := 0)), Collision)
    else if p.state.Tx? then (p, Transmitting)
    else (p, Sent)
  }

  function TakeCompleted(p: Phy): (Phy, Option<Capture>) {
    if p.rx.state.Completed? then (p.(rx := p.rx.(state := Empty)), Some(p.rx.last)) else (p, None)
  }

  predicate LineDebouncing(p: Phy) {
    p.debounce != 0
  }

  const BLANK_FRAME := Frame(seq(DATA_LEN, i => 0), 0)
  const NO_CAPTURE := Capture(seq(SAMPLE_BUF_LEN, i => 0), 0, 0)

  function NewPhy(): (p: Phy)
    ensures WellFormed(p)
  {
    Phy(true, false, Idle, 0, 0, 0, 0, Auto,
        Receiver(Empty, seq(SAMPLE_BUF_LEN, i => 0), 0, 0, 0, 0, 0, NO_CAPTURE),
        Sender(BLANK_FRAME, 0, 0, false, 0, false, 0, false, false, 0))
  }

  function RestartGateFor(releaseToEdge: nat): nat {
    if releaseToEdge < TX_ARM_LEAD_TICKS + 1 then 0 else releaseToEdge - (TX_ARM_LEAD_TICKS + 1)
  }
}
