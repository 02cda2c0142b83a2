/**
 From value to value over an ideal line: one transceiver encodes and drives a frame, another on
 the same tick clock samples the line, and the decoder reads the value back
 (halfbits.rs, fsm.rs, manchester.rs, rx_decode.rs, frame_length.rs).
 */
module RoundTrip {
  import opened Wrappers
  import opened Bits
  import opened HalfBits
  import opened Fsm
  import opened Reception
  import opened Manchester
  import opened PhaseSearch
  import opened RxDecode
  import opened FrameDecode

  // ---- Two transceivers on one line ----

  datatype Bus = Bus(tx: Phy, rx: Phy)

  /** The line is high unless someone pulls it low. Both sample what the tick before left on it. */
  function BusTick(b: Bus): (r: Bus)
    requires WellFormed(b.tx) && WellFormed(b.rx)
    ensures WellFormed(r.tx) && WellFormed(r.rx)
  {
    var line := b.tx.out && b.rx.out;
    Bus(Tick(b.tx, line), Tick(b.rx, line))
  }

  function BusAfter(b: Bus, k: nat): (r: Bus)
    requires WellFormed(b.tx) && WellFormed(b.rx)
    ensures WellFormed(r.tx) && WellFormed(r.rx)
  {
    if k == 0 then b else BusTick(BusAfter(b, k - 1))
  }

  /** A frame as the encoder makes it. */
  predicate Encodes(f: Frame, value: u32, n: nat) {
    var h := FrameHalfBits(value, n);
    && Sendable(f) && f.length == |h|
    && forall k | 0 <= k < 8 * DATA_LEN :: Dominant(f.data, k) == (k < |h| && h[k])
  }

  /** The encoder's buffer is such a frame. */
  method EncodeFrame(value: u32, n: u8) returns (f: Frame)
    requires n <= 33
    ensures Encodes(f, value, n)
  {
    hide Dominant, FrameHalfBits;
    var buffer := HalfBitBuffer.Encode(value, n);
    f := Frame(buffer.data[..], buffer.length);
  }

  // ---- The transmitter alone ----

  /** What the transmitter leaves on the line after tick `t`; it lets go one tick into the last half-bit. */
  predicate OutAt(f: Frame, t: nat)
    requires Sendable(f)
  {
    t < 4 || t > 4 * f.length || !Dominant(f.data, (t - 4) / 4)
  }

  /** The transmitter `t` ticks after a frame is loaded, with nobody else on the line. */
  predicate SendingAt(p: Phy, f: Frame, t: nat) {
    && WellFormed(p) && Sendable(f) && p.tx.frame == f && p.tx.collision == 0 && !p.tx.yielded
    && p.out == OutAt(f, t)
    && if t <= 3 then p.state.Tx? && p.tx.armed == 3 - t && p.tx.count == p.tx.slot == 0
       else if t <= 4 * f.length then
         p.state.Tx? && p.tx.armed == 0 && p.tx.count == (t - 4) / 4 + 1 && p.tx.slot == 3 - (t - 4) % 4
         && p.tx.high == p.out
       else p.state.Idle? && !p.busy
  }

  lemma SendingStep(p: Phy, f: Frame, t: nat)
    requires SendingAt(p, f, t)
    ensures SendingAt(Tick(p, p.out), f, t + 1)
  {
    hide Dominant, TickRx, TickCollisionTx, ReplayLow;
    if 4 <= t < 4 * f.length {
      HalfBitStep(p, f, t);
    }
  }

  /** Within the frame, with the line as it is driven. */
  lemma HalfBitStep(p: Phy, f: Frame, t: nat)
    requires SendingAt(p, f, t) && 4 <= t < 4 * f.length
    ensures SendingAt(Tick(p, p.out), f, t + 1)
  {
    hide Dominant, TickRx, TickIdle, TickCollisionTx;
    HalfBitCount(t);
  }

  /** A forward frame sees a collision in the two middle samples of a half-bit it drives recessive, and in no other. */
  lemma CollisionIsSeenIff(p: Phy, f: Frame, t: nat, high: bool)
    requires SendingAt(p, f, t) && p.policy.Auto?
    ensures Tick(p, high).state.CollisionTx? <==>
              f.length != BACKWARD_FRAME_HALF_BITS && 4 <= t < 4 * f.length && (t % 4 == 1 || t % 4 == 2) && p.out && !high
  {
    hide Dominant, TickRx, ReplayLow;
    if 4 <= t < 4 * f.length {
      assert p.tx.count < f.length;
      assert p.tx.slot == 1 <==> t % 4 == 2;
      assert p.tx.slot == 2 <==> t % 4 == 1;
    } else if t > 4 * f.length {
      ListeningKeeps(p, high);
    }
  }

  lemma HalfBitCount(t: nat)
    requires t >= 4
    ensures (t - 3) / 4 == if t % 4 == 3 then (t - 4) / 4 + 1 else (t - 4) / 4
    ensures (t - 3) % 4 == if t % 4 == 3 then 0 else (t - 4) % 4 + 1
  {
  }

  /** A receiver never drives the line. */
  predicate Listening(p: Phy) {
    WellFormed(p) && p.out && (p.state.Idle? || p.state.Rx?)
  }

  lemma ListeningKeeps(p: Phy, high: bool)
    requires Listening(p)
    ensures Listening(Tick(p, high))
  {
    hide Record, Finish, ReplayLow;
    var q := CountRuns(p, high);
    if q.state.Idle? && !high {
      var e := q.(debounce := SatAdd(q.debounce, 0xFF));
      ReplayListens(EnterRx(e), e.debounce);
    }
  }

  lemma {:induction false} ReplayListens(p: Phy, ticks: nat)
    requires Listening(p)
    ensures Listening(ReplayLow(p, ticks))
    decreases ticks
  {
    hide Record, Finish;
    if ticks > 0 {
      ReplayListens(TickRx(p, false), ticks - 1);
    }
  }

  // ---- Both together ----

  function Line(f: Frame, k: nat): (l: seq<bool>)
    requires Sendable(f)
    ensures |l| == k && forall i | 0 <= i < k :: l[i] == OutAt(f, i)
  {
    seq(k, i requires 0 <= i < k => OutAt(f, i))
  }

  /** The lone transmitter sends undisturbed and the receiver samples exactly its line. */
  lemma {:induction false} BusRuns(b: Bus, f: Frame, k: nat)
    requires SendingAt(b.tx, f, 0) && Listening(b.rx)
    ensures SendingAt(BusAfter(b, k).tx, f, k)
    ensures Listening(BusAfter(b, k).rx) && BusAfter(b, k).rx == Ticks(b.rx, Line(f, k))
    decreases k
  {
    hide Tick, SendingAt, Listening;
    SendingOut(b.tx, f, 0);
    ListeningOut(b.rx);
    if k > 0 {
      BusRuns(b, f, k - 1);
      var c := BusAfter(b, k - 1);
      SendingOut(c.tx, f, k - 1);
      ListeningOut(c.rx);
      SendingStep(c.tx, f, k - 1);
      ListeningKeeps(c.rx, c.tx.out);
      assert Line(f, k)[..k - 1] == Line(f, k - 1);
    } else {
      assert Line(f, 0) == [];
    }
  }

  lemma SendingOut(p: Phy, f: Frame, t: nat)
    requires SendingAt(p, f, t)
    ensures WellFormed(p) && Sendable(f) && p.out == OutAt(f, t)
  {
  }

  lemma ListeningOut(p: Phy)
    requires Listening(p)
    ensures WellFormed(p) && p.out
  {
  }

  lemma LoadedSends(p: Phy, f: Frame, answer: bool)
    requires WellFormed(p) && p.out && CanStartTx(p, f)
    ensures SendingAt(LoadTx(p, f, answer), f, 0)
  {
  }

  // ---- The line as the decoder wants it ----

  function FrameBits(value: u32, n: nat): (b: seq<bool>)
    ensures |b| == n + 1
  {
    [true] + ValueBits(value, n)
  }

  /** No half-bit is stretched when both ends share a clock. */
  function NoStretch(n: nat): nat {
    2 * (n + 1)
  }

  lemma LineCarries(f: Frame, value: u32, n: nat, m: nat)
    requires Encodes(f, value, n)
    ensures OutAt(f, 4 + m) == LevelOf(FrameBits(value, n), NoStretch(n), m)
  {
    hide Dominant;
    var j := m / 4;
    var h := FrameHalfBits(value, n);
    var frame := FrameBits(value, n);
    assert HalfOf(NoStretch(n), m) == j || (HalfOf(NoStretch(n), m) >= 2 * |frame| && j >= 2 * |frame|);
    if j < f.length {
      assert Dominant(f.data, j) == h[j];
      assert j < 2 * |frame| ==> h[j] == Pairs(frame)[j];
    }
  }

  /** The capture's length: the last dominant half-bit and sixteen recessive ticks. */
  function HeardTicks(value: u32, n: nat): nat
    requires n > 0
  {
    8 * n + (if ValueBit(value, 0) then 4 else 8) + RX_IDLE_LINE_HIGH_TICKS
  }

  function HeardLevels(value: u32, n: nat): (l: seq<bool>)
    requires n > 0
    ensures |l| == HeardTicks(value, n)
    ensures forall m | 0 <= m < |l| :: l[m] == LevelOf(FrameBits(value, n), NoStretch(n), m)
  {
    seq(HeardTicks(value, n), m requires 0 <= m < HeardTicks(value, n) => LevelOf(FrameBits(value, n), NoStretch(n), m))
  }

  /** The last dominant tick of the frame. */
  lemma LastDominant(value: u32, n: nat, m: nat)
    requires n > 0
    ensures var z := HeardTicks(value, n) - RX_IDLE_LINE_HIGH_TICKS;
            && (m == z - 1 ==> !LevelOf(FrameBits(value, n), NoStretch(n), m))
            && (m >= z ==> LevelOf(FrameBits(value, n), NoStretch(n), m))
  {
    hide ValueBit;
    var frame := FrameBits(value, n);
    assert frame[n] == ValueBit(value, 0);
    BitLevels(frame, NoStretch(n), n);
    if m >= 8 * n + 8 {
      assert HalfOf(NoStretch(n), m) >= 2 * |frame|;
    }
  }

  lemma HighTail(l: seq<bool>, k: nat)
    requires k < |l| && !l[k] && forall i | k < i < |l| :: l[i]
    ensures TrailingHigh(l) == |l| - k - 1
    decreases |l|
  {
    if k + 1 < |l| {
      var rest := l[..|l| - 1];
      assert forall i | k < i < |rest| :: rest[i];
      HighTail(rest, k);
    }
  }

  lemma NoLongTail(l: seq<bool>, m: nat)
    requires m < |l| && !l[m]
    ensures TrailingHigh(l) < |l| - m
  {
    TrailingHighBound(l);
  }

  lemma HeardCloses(value: u32, n: nat)
    requires n > 0
    ensures Closes(HeardLevels(value, n))
  {
    hide LevelOf, ValueBits, TrailingHigh;
    var l := HeardLevels(value, n);
    var frame, s := FrameBits(value, n), NoStretch(n);
    var z := |l| - RX_IDLE_LINE_HIGH_TICKS;
    BitLevels(frame, s, 0);
    LastDominant(value, n, z - 1);
    forall i | z - 1 < i < |l| ensures l[i] {
      LastDominant(value, n, i);
    }
    HighTail(l, z - 1);
    forall k | 2 <= k < |l| ensures TrailingHigh(l[..k]) < RX_IDLE_LINE_HIGH_TICKS {
      TrailingHighBound(l[..k]);
      if k >= RX_IDLE_LINE_HIGH_TICKS {
        var p := k - RX_IDLE_LINE_HIGH_TICKS;
        var m := z - 1;
        if p + 7 <= FrameEnd(frame, s) {
          m := FrameIsLively(frame, s, p);
        }
        assert !l[..k][m];
        NoLongTail(l[..k], m);
      }
    }
  }

  // ---- What the receiver ends up with ----

  /** The ticks from loading a frame to its completed capture. */
  function ArrivalTicks(value: u32, n: nat): nat
    requires n > 0
  {
    4 + HeardTicks(value, n)
  }

  lemma LineSplits(f: Frame, value: u32, n: nat)
    requires n > 0 && Encodes(f, value, n)
    ensures Line(f, ArrivalTicks(value, n)) == Line(f, 4) + HeardLevels(value, n)
  {
    hide Encodes, LevelOf, OutAt, Sendable, ValueBit, FrameBits;
    EncodedIsSendable(f, value, n);
    var l := HeardLevels(value, n);
    var x, y := Line(f, 4 + |l|), Line(f, 4) + l;
    forall i | 0 <= i < 4 + |l| ensures x[i] == y[i] {
      if i >= 4 {
        LineCarries(f, value, n, i - 4);
        assert y[i] == l[i - 4];
      }
    }
  }

  lemma LineIsHeard(f: Frame, value: u32, n: nat)
    requires n > 0 && Encodes(f, value, n)
    ensures ListenTo(Line(f, ArrivalTicks(value, n))) == Heard(HeardLevels(value, n))
  {
    hide Closes, Encodes, LevelOf, OutAt, ListenTo, ValueBit, FrameBits, FrameHalfBits, HeardLevels;
    EncodedIsSendable(f, value, n);
    LineSplits(f, value, n);
    LeadIsQuiet(f);
    HeardCloses(value, n);
    ClosedFrameIsHeard(Line(f, 4), HeardLevels(value, n));
  }

  lemma EncodedIsSendable(f: Frame, value: u32, n: nat)
    requires Encodes(f, value, n)
    ensures Sendable(f) && f.length == 2 * (n + 3)
  {
  }

  lemma LeadIsQuiet(f: Frame)
    requires Sendable(f)
    ensures ListenTo(Line(f, 4)) == Quiet(0)
  {
    var l := Line(f, 4);
    assert l == [true, true, true, true];
    assert l[..3] == [true, true, true] && l[..3][..2] == [true, true] && l[..3][..2][..1] == [true];
    assert ListenTo([]) == Quiet(0);
    assert ListenTo([true]) == Quiet(0);
    assert ListenTo([true, true]) == Quiet(0);
    assert ListenTo([true, true, true]) == Quiet(0);
  }

  /** A capture of the frame's levels carries the frame. */
  lemma CaptureCarries(c: Capture, value: u32, n: nat)
    requires 0 < n <= 32 && Publishes(c, HeardLevels(value, n))
    ensures |c.samples| == SAMPLE_BUF_LEN
    ensures var w := WindowOf(c.samples, c.sampleCount);
            var frame, s := FrameBits(value, n), NoStretch(n);
            && Carries(Levels(w), frame, s) && FrameEnd(frame, s) < w.bits
    ensures c.sampleCount == n + if ValueBit(value, 0) then 3 else 4
  {
    hide Bit, LevelOf, TrailingHigh, ValueBit, ValueBits;
    var l := HeardLevels(value, n);
    HeardCloses(value, n);
    CaptureIsLevels(c, l);
    var w := WindowOf(c.samples, c.sampleCount);
    var frame, s := FrameBits(value, n), NoStretch(n);
    forall m | 0 <= m < FrameEnd(frame, s) + 10 ensures Levels(w)[m] == LevelOf(frame, s, m) {
      assert w.bytes[m / 8] == c.samples[m / 8];
      assert LevelAt(c.samples, m) == (m >= |l| || l[m]);
      LastDominant(value, n, m);
    }
  }

  // ---- Values and bits ----

  function Number(bits: seq<bool>): nat {
    if bits == [] then 0 else 2 * Number(bits[..|bits| - 1]) + if bits[|bits| - 1] then 1 else 0
  }

  function Pow2(n: nat): nat {
    if n == 0 then 1 else 2 * Pow2(n - 1)
  }

  lemma {:induction false} NumberOfValue(value: u32, n: nat)
    requires n <= 32 && value < Pow2(n)
    ensures Number(ValueBits(value, n)) == value
    decreases n
  {
    if n > 0 {
      var b, half := ValueBits(value, n), ValueBits(value / 2, n - 1);
      NumberOfValue(value / 2, n - 1);
      forall k | 0 <= k < n - 1 ensures b[k] == half[k] {
        HalvedBit(value, n - 1 - k);
      }
      assert b[..n - 1] == half;
    }
  }

  lemma HalvedBit(value: u32, i: nat)
    requires 0 < i < 32
    ensures ValueBit(value, i) == ValueBit(value / 2, i - 1)
  {
  }

  /** The first `n` bits of decoded bytes. */
  function BitsOf(data: seq<bv8>, n: nat): (b: seq<bool>)
    requires n <= 8 * |data|
    ensures |b| == n
  {
    seq(n, i requires 0 <= i < n => LevelAt(data, i))
  }

  lemma PackedBit(bits: seq<bool>, j: nat, i: nat)
    requires |bits| % 8 == 0 && 8 * j < |bits| <= 8 * DECODED_BYTES && i < 8
    ensures Bit(Packed(bits)[j], i) == bits[8 * j + i]
  {
    hide Bit, Folded;
    var s := ByteSlice(bits, j);
    assert s == bits[8 * j..8 * j + 8];
    FoldedBits(s, i);
  }

  lemma PackedReads(bits: seq<bool>)
    requires |bits| % 8 == 0 && |bits| <= 8 * DECODED_BYTES
    ensures BitsOf(Packed(bits), |bits|) == bits
  {
    hide Bit, Packed;
    forall i | 0 <= i < |bits| ensures LevelAt(Packed(bits), i) == bits[i] {
      PackedBit(bits, i / 8, i % 8);
    }
  }

  // ---- The round trip ----

  /** The transmitter was never disturbed: no collision, no yield, every half-bit driven in its turn. */
  predicate Undisturbed(b: Bus, f: Frame, k: nat)
    requires WellFormed(b.tx) && WellFormed(b.rx)
  {
    forall t | 0 <= t <= k :: SendingAt(BusAfter(b, t).tx, f, t) && !BusAfter(b, t).tx.state.CollisionTx?
  }

  /** A completed capture from which the decoder reads these bits at phase 0. */
  predicate Delivers(rx: Phy, bits: seq<bool>) {
    && rx.rx.state.Completed? && |rx.rx.last.samples| == SAMPLE_BUF_LEN
    && var d := Decode(WindowOf(rx.rx.last.samples, rx.rx.last.sampleCount), MAX_DECODED_BITS, 0);
    d.bitLen == |bits| && d.data == Packed(bits)
  }

  /**
   Every value of 1 to 32 bits arrives: driven by ticks onto an ideal line and received by
   another transceiver, it decodes at phase 0 to the same bits, in n + 3 or n + 4 samples.
   */
  lemma FrameArrives(p: Phy, q: Phy, f: Frame, value: u32, n: nat, answer: bool)
    requires WellFormed(p) && p.out && CanStartTx(p, f) && 0 < n <= 32 && Encodes(f, value, n)
    requires WellFormed(q) && q.out && q.state.Idle? && q.debounce == 0
    ensures var b := Bus(LoadTx(p, f, answer), q);
            var k := ArrivalTicks(value, n);
            && Undisturbed(b, f, k)
            && Delivers(BusAfter(b, k).rx, ValueBits(value, n))
            && BusAfter(b, k).rx.rx.last.sampleCount == n + if ValueBit(value, 0) then 3 else 4
  {
    hide Encodes, SendingAt, Decode, Ticks, Packed, Publishes, Carries, Levels, LevelOf, ValueBit, LoadTx, Listen;
    var b := Bus(LoadTx(p, f, answer), q);
    var k := ArrivalTicks(value, n);
    LoadedSends(p, f, answer);
    forall t | 0 <= t <= k ensures SendingAt(BusAfter(b, t).tx, f, t) && !BusAfter(b, t).tx.state.CollisionTx? {
      BusRuns(b, f, t);
      SendsOrRests(BusAfter(b, t).tx, f, t);
    }
    BusRuns(b, f, k);
    ReceiverRefines(q, Line(f, k));
    LineIsHeard(f, value, n);
    var rx := BusAfter(b, k).rx;
    CaptureCarries(rx.rx.last, value, n);
    FrameDecodes(WindowOf(rx.rx.last.samples, rx.rx.last.sampleCount), FrameBits(value, n), NoStretch(n));
    assert FrameBits(value, n)[1..] == ValueBits(value, n);
  }

  lemma SendsOrRests(p: Phy, f: Frame, t: nat)
    requires SendingAt(p, f, t)
    ensures p.state.Tx? || p.state.Idle?
  {
  }

  /** The value a decoder hands on, for whole bytes. */
  function DecodedValue(d: PhaseDecode): nat
    requires d.bitLen <= 8 * |d.data|
  {
    Number(BitsOf(d.data, d.bitLen))
  }

  /** The search settles on phase 0 and the frame is the one that was sent. */
  lemma SniffedAsSent(rx: Phy, value: u32, n: nat)
    requires n == 8 || n == 16 || n == 24
    requires value < Pow2(n) && Delivers(rx, ValueBits(value, n))
    ensures var c := rx.rx.last;
            var found := Found(WindowOf(c.samples, c.sampleCount), SNIFFED_BIT_LENGTHS);
            && found.Some? && found.value.bitLen == n && |found.value.data| == DECODED_BYTES
            && DecodedValue(found.value) == value
    ensures n == 8 ==> BackwardByte(rx.rx.last).Some?
                       && Number(ByteBits(BackwardByte(rx.rx.last).value)) == value
  {
    hide Packed, Decode, Bit, ByteBits, BitsOf, Number;
    var bits := ValueBits(value, n);
    assert 8 in [8] && 8 in [8, 16, 24] && 16 in [8, 16, 24] && 24 in [8, 16, 24];
    PackedReads(bits);
    NumberOfValue(value, n);
    if n == 8 {
      var found := Found(WindowOf(rx.rx.last.samples, rx.rx.last.sampleCount), BACKWARD_FRAME_BIT_LENGTHS);
      assert found.value.data == Packed(bits);
      OneByte(Packed(bits), bits);
    }
  }

  lemma OneByte(data: seq<bv8>, bits: seq<bool>)
    requires |data| == DECODED_BYTES && |bits| == 8 && BitsOf(data, 8) == bits
    ensures ByteBits(data[0]) == bits
  {
    hide Bit;
    var b := BitsOf(data, 8);
    forall i | 0 <= i < 8 ensures ByteBits(data[0])[i] == bits[i] {
      assert b[i] == LevelAt(data, i);
    }
  }

  /** The number in the bytes of a sniffed frame, the first byte on top. */
  function SniffedValue(f: SniffedFrame): nat {
    match f
    case Backward8(byte) => Number(ByteBits(byte))
    case Forward16(hi, lo) => 256 * Number(ByteBits(hi)) + Number(ByteBits(lo))
    case Forward24(a, b, c) => 65_536 * Number(ByteBits(a)) + 256 * Number(ByteBits(b)) + Number(ByteBits(c))
    case _ => 0
  }

  lemma NumberOfByte(data: seq<bv8>, k: nat)
    requires k < |data|
    ensures Number(BitsOf(data, 8 * k + 8)) == 256 * Number(BitsOf(data, 8 * k)) + Number(ByteBits(data[k]))
  {
    hide LevelAt, Bit, Number;
    var all := BitsOf(data, 8 * k + 8);
    ByteAtEnd(data, k);
    assert BitsOf(data, 8 * k) == all[..8 * k];
    NumberOfEight(all[..8 * k], ByteBits(data[k]));
    assert all == all[..8 * k] + ByteBits(data[k]);
  }

  lemma ByteAtEnd(data: seq<bv8>, k: nat)
    requires k < |data|
    ensures BitsOf(data, 8 * k + 8)[8 * k..] == ByteBits(data[k])
  {
    hide LevelAt, Bit, ByteBits;
    forall i: nat | i < 8 ensures BitsOf(data, 8 * k + 8)[8 * k..][i] == ByteBits(data[k])[i] {
      LevelOfByte(data, k, i);
      BitOfByte(data[k], i);
    }
  }

  lemma LevelOfByte(data: seq<bv8>, k: nat, i: nat)
    requires k < |data| && i < 8
    ensures LevelAt(data, 8 * k + i) == Bit(data[k], i)
  {
    hide Bit;
    assert (8 * k + i) / 8 == k && (8 * k + i) % 8 == i;
  }

  lemma BitOfByte(b: bv8, i: nat)
    requires i < 8
    ensures ByteBits(b)[i] == Bit(b, i)
  {
    hide Bit;
  }

  lemma NumberSnoc(bits: seq<bool>, one: bool)
    ensures Number(bits + [one]) == 2 * Number(bits) + if one then 1 else 0
  {
    assert (bits + [one])[..|bits|] == bits;
  }

  lemma {:induction false} NumberOfEight(bits: seq<bool>, byte: seq<bool>)
    requires |byte| == 8
    ensures Number(bits + byte) == 256 * Number(bits) + Number(byte)
  {
    NumberJoins(bits, byte);
    assert Pow2(8) == 256 by {
      assert Pow2(4) == 16;
    }
  }

  lemma {:induction false} NumberJoins(a: seq<bool>, b: seq<bool>)
    ensures Number(a + b) == Pow2(|b|) * Number(a) + Number(b)
    decreases |b|
  {
    hide Number;
    if b == [] {
      assert a + b == a;
      NoNumber();
    } else {
      var rest, last := b[..|b| - 1], b[|b| - 1];
      assert a + b == a + rest + [last] && b == rest + [last];
      NumberSnoc(a + rest, last);
      NumberSnoc(rest, last);
      NumberJoins(a, rest);
      Doubled(Pow2(|rest|), Number(a));
    }
  }

  lemma NoNumber()
    ensures Number([]) == 0
  {
  }

  lemma Doubled(x: nat, y: nat)
    ensures 2 * x * y == 2 * (x * y)
  {
  }

  /** The frame handed on for a decode of a known length is its bits, byte by byte from the top. */
  lemma SniffedIsDecoded(d: PhaseDecode)
    requires |d.data| == DECODED_BYTES
    ensures d.bitLen == 8 ==> FrameOf(Some(d)).Backward8? && SniffedValue(FrameOf(Some(d))) == DecodedValue(d)
    ensures d.bitLen == 16 ==> FrameOf(Some(d)).Forward16? && SniffedValue(FrameOf(Some(d))) == DecodedValue(d)
    ensures d.bitLen == 24 ==> FrameOf(Some(d)).Forward24? && SniffedValue(FrameOf(Some(d))) == DecodedValue(d)
  {
    hide BitsOf, ByteBits, Number;
    NoBits(d.data);
    NumberOfByte(d.data, 0);
    NumberOfByte(d.data, 1);
    NumberOfByte(d.data, 2);
  }

  lemma NoBits(data: seq<bv8>)
    ensures Number(BitsOf(data, 0)) == 0
  {
  }

  /** The sample count tells the three lengths apart as the length classes do. */
  lemma LengthClasses(value: u32, n: nat, count: nat)
    requires n == 8 || n == 16 || n == 24
    requires count == n + if ValueBit(value, 0) then 3 else 4
    ensures LengthClass(count).Backward? <==> n == 8
    ensures IsForward24Length(count) <==> n == 24
  {
  }

  /** Encode, send, receive, decode: the value comes back, at its length and in its length class. */
  lemma RoundTrips(p: Phy, q: Phy, f: Frame, value: u32, n: nat, answer: bool)
    requires n == 8 || n == 16 || n == 24
    requires value < Pow2(n) && Encodes(f, value, n) && WellFormed(p) && p.out && CanStartTx(p, f)
    requires WellFormed(q) && q.out && q.state.Idle? && q.debounce == 0
    ensures var b := Bus(LoadTx(p, f, answer), q);
            var k := ArrivalTicks(value, n);
            && Undisturbed(b, f, k) && BusAfter(b, k).rx.rx.state.Completed?
            && var c := BusAfter(b, k).rx.rx.last;
            && |c.samples| == SAMPLE_BUF_LEN
            && var found := Found(WindowOf(c.samples, c.sampleCount), SNIFFED_BIT_LENGTHS);
            && found.Some? && found.value.bitLen == n && |found.value.data| == DECODED_BYTES
            && DecodedValue(found.value) == value
            && (n == 8 ==> BackwardByte(c).Some? && Number(ByteBits(BackwardByte(c).value)) == value)
            && (LengthClass(c.sampleCount).Backward? <==> n == 8)
            && (IsForward24Length(c.sampleCount) <==> n == 24)
  {
    hide Found, BackwardByte, Encodes, Undisturbed, Decode, ValueBit, BusAfter, LoadTx, DecodedValue, Pow2, Packed;
    FrameArrives(p, q, f, value, n, answer);
    var b := Bus(LoadTx(p, f, answer), q);
    var rx := BusAfter(b, ArrivalTicks(value, n)).rx;
    SniffedAsSent(rx, value, n);
    LengthClasses(value, n, rx.rx.last.sampleCount);
  }

  // ---- Two answers at once ----

  /** Two backward frames on one line, the second `gap` ticks after the first. */
  predicate TwoAnswers(x: seq<bool>, a: u32, b: u32, gap: nat) {
    forall m: nat | m < |x| ::
      x[m] == (LevelOf(FrameBits(a, 8), NoStretch(8), m) && (m < gap || LevelOf(FrameBits(b, 8), NoStretch(8), m - gap)))
  }

  /** The ticks from the first dominant one to the last, of an answer alone and of both. */
  function AnswerSpan(value: u32): nat {
    64 + if ValueBit(value, 0) then 4 else 8
  }

  function BothSpan(a: u32, b: u32, gap: nat): nat {
    if AnswerSpan(a) > gap + AnswerSpan(b) then AnswerSpan(a) else gap + AnswerSpan(b)
  }

  function AnswerLevel(value: u32, m: nat): bool {
    LevelOf(FrameBits(value, 8), NoStretch(8), m)
  }

  lemma AnswerLevels(value: u32, m: nat)
    ensures m < 4 ==> !AnswerLevel(value, m)
    ensures m == AnswerSpan(value) - 1 ==> !AnswerLevel(value, m)
    ensures m >= AnswerSpan(value) ==> AnswerLevel(value, m)
  {
    hide LevelOf, ValueBit;
    LastDominant(value, 8, m);
    BitLevels(FrameBits(value, 8), NoStretch(8), 0);
  }

  /** Together they are never recessive for sixteen ticks before the last dominant one. */
  lemma BothAreLively(x: seq<bool>, a: u32, b: u32, gap: nat, p: nat) returns (m: nat)
    requires gap <= 66 && TwoAnswers(x, a, b, gap)
    requires p + RX_IDLE_LINE_HIGH_TICKS <= |x| && p < BothSpan(a, b, gap)
    ensures p <= m < p + RX_IDLE_LINE_HIGH_TICKS && !x[m]
  {
    hide LevelOf, ValueBit;
    if p + 7 <= 72 {
      m := FrameIsLively(FrameBits(a, 8), NoStretch(8), p);
    } else if p - gap + 7 <= 72 {
      m := FrameIsLively(FrameBits(b, 8), NoStretch(8), p - gap);
      m := m + gap;
    } else {
      m := BothSpan(a, b, gap) - 1;
      AnswerLevels(a, m);
      AnswerLevels(b, m - gap);
    }
  }

  lemma BothClose(x: seq<bool>, a: u32, b: u32, gap: nat)
    requires gap <= 66 && TwoAnswers(x, a, b, gap) && |x| == BothSpan(a, b, gap) + RX_IDLE_LINE_HIGH_TICKS
    ensures Closes(x)
  {
    hide LevelOf, ValueBit, TrailingHigh;
    var z := BothSpan(a, b, gap);
    AnswerLevels(a, 0);
    AnswerLevels(a, 1);
    AnswerLevels(a, z - 1);
    AnswerLevels(b, z - 1 - gap);
    assert !x[z - 1];
    forall i | z <= i < |x| ensures x[i] {
      AnswerLevels(a, i);
      AnswerLevels(b, i - gap);
    }
    HighTail(x, z - 1);
    forall k | 2 <= k < |x| ensures TrailingHigh(x[..k]) < RX_IDLE_LINE_HIGH_TICKS {
      TrailingHighBound(x[..k]);
      if k >= RX_IDLE_LINE_HIGH_TICKS {
        var m := BothAreLively(x, a, b, gap, k - RX_IDLE_LINE_HIGH_TICKS);
        assert !x[..k][m];
        NoLongTail(x[..k], m);
      }
    }
  }

  /**
   Two answers that start within 66 ticks of each other complete exactly one capture, sixteen ticks
   after the last dominant tick of both; it holds both, and classes backward exactly when they span
   fewer than 128 ticks, as they do when they start within 48 ticks.
   */
  lemma OverlappingAnswersClassBackward(q: Phy, line: seq<bool>, x: seq<bool>, a: u32, b: u32, gap: nat)
    requires WellFormed(q) && q.state.Idle? && q.debounce == 0
    requires ListenTo(line) == Quiet(0) && gap <= 66 && TwoAnswers(x, a, b, gap)
    requires |x| >= BothSpan(a, b, gap) + RX_IDLE_LINE_HIGH_TICKS
    ensures var both := BothSpan(a, b, gap) + RX_IDLE_LINE_HIGH_TICKS;
            && (forall k | 0 <= k <= |x| :: ListenTo(line + x[..k]).Heard? <==> k == both)
            && ListenTo(line + x[..both]) == Heard(x[..both])
            && var rx := Ticks(q, line + x[..both]).rx;
               && rx.state.Completed? && Publishes(rx.last, x[..both])
               && (LengthClass(rx.last.sampleCount).Backward? <==> BothSpan(a, b, gap) < 128)
    ensures gap <= 48 ==> BothSpan(a, b, gap) < 128
  {
    hide LevelOf, ListenTo, Ticks, Records, Closes, TrailingHigh;
    var both := BothSpan(a, b, gap) + RX_IDLE_LINE_HIGH_TICKS;
    BothClose(x[..both], a, b, gap);
    ClosedFrameIsHeard(line, x[..both]);
    ReceiverRefines(q, line + x[..both]);
    forall k | 0 <= k <= |x| ensures ListenTo(line + x[..k]).Heard? <==> k == both {
      forall i | both <= i < |x| ensures x[i] {
        AnswerLevels(a, i);
        AnswerLevels(b, i - gap);
      }
      HeardOnce(line, x, both, k);
    }
  }

  /** A closed frame is heard with its last tick, not before, and not again while the line stays recessive. */
  lemma {:induction false} HeardOnce(line: seq<bool>, x: seq<bool>, end: nat, k: nat)
    requires ListenTo(line) == Quiet(0) && end <= |x| && Closes(x[..end]) && k <= |x|
    requires forall i | end <= i < |x| :: x[i]
    ensures ListenTo(line + x[..k]).Heard? <==> k == end
    ensures k > end ==> ListenTo(line + x[..k]) == Quiet(0)
    decreases k
  {
    hide ListenTo, TrailingHigh;
    if k == 0 {
      assert line + x[..k] == line;
    } else if k == 1 {
      assert line + x[..1] == line + [x[0]];
      ListenSnoc(line, x[0]);
    } else if k < end {
      assert x[..end][..k] == x[..k];
      ListensUpTo(line, x[..end], k);
    } else if k == end {
      ClosedFrameIsHeard(line, x[..end]);
    } else {
      HeardOnce(line, x, end, k - 1);
      assert line + x[..k] == line + x[..k - 1] + [x[k - 1]];
      ListenSnoc(line + x[..k - 1], x[k - 1]);
    }
  }
}
