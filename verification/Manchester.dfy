/** Decoding a sampled capture by weighing eight ticks at a time (manchester.rs). */
module Manchester {
  import opened Wrappers
  import opened Bits
  import opened Fsm

  const MAX_DECODED_BITS := 32
  const MIN_DECODED_BITS := 3
  const PHASE_SCAN_COUNT := 4
  const DECODED_BYTES := 8
  const WINDOW_LEN := SAMPLE_BUF_LEN + 2
  const FORWARD24_BITS := 24

  /** The samples of a capture and one recessive byte after them. */
  datatype SampleWindow = SampleWindow(bytes: seq<bv8>, len: nat, bits: nat)

  predicate WindowOk(w: SampleWindow) {
    |w.bytes| == WINDOW_LEN && 1 <= w.len <= SAMPLE_BUF_LEN + 1 && w.bits == 8 * (w.len - 1)
  }

  function Levels(w: SampleWindow): (l: seq<bool>)
    requires WindowOk(w)
    ensures |l| == 8 * w.len
  {
    seq(8 * w.len, m requires 0 <= m < 8 * w.len => LevelAt(w.bytes, m))
  }

  /** The window of a capture. */
  function WindowOf(samples: seq<bv8>, sampleCount: nat): (w: SampleWindow)
    requires |samples| == SAMPLE_BUF_LEN
    ensures WindowOk(w)
  {
    var n := if sampleCount < SAMPLE_BUF_LEN then sampleCount else SAMPLE_BUF_LEN;
    SampleWindow(samples[..n] + [0xFF] + seq(WINDOW_LEN - n - 1, _ => 0), n + 1, 8 * n)
  }

  method OfCapture(samples: seq<bv8>, sampleCount: nat) returns (w: SampleWindow)
    requires |samples| == SAMPLE_BUF_LEN
    ensures w == WindowOf(samples, sampleCount)
  {
    var n := if sampleCount < SAMPLE_BUF_LEN then sampleCount else SAMPLE_BUF_LEN;
    var bytes: seq<bv8> := seq(WINDOW_LEN, _ => 0);
    var i := 0;
    while i < n
      invariant 0 <= i <= n && |bytes| == WINDOW_LEN
      invariant forall k | 0 <= k < WINDOW_LEN :: bytes[k] == if k < i then samples[k] else 0
    {
      bytes := bytes[i := samples[i]];
      i := i + 1;
    }
    bytes := bytes[n := 0xFF];
    w := SampleWindow(bytes, n + 1, 8 * n);
    assert w.bytes == WindowOf(samples, sampleCount).bytes;
  }

  // ---- Eight levels at a position ----

  /** Eight bits that straddle two bytes. */
  function Straddle(first: bv8, next: bv8, shift: nat): bv8
    requires shift < 8
  {
    if shift == 0 then first
    else if shift == 1 then (first << 1) | (next >> 7)
    else if shift == 2 then (first << 2) | (next >> 6)
    else if shift == 3 then (first << 3) | (next >> 5)
    else if shift == 4 then (first << 4) | (next >> 4)
    else if shift == 5 then (first << 5) | (next >> 3)
    else if shift == 6 then (first << 6) | (next >> 2)
    else (first << 7) | (next >> 1)
  }

  /** One more bit of shift takes in the next bit. */
  lemma StraddleNext(first: bv8, next: bv8, shift: nat)
    requires shift < 7
    ensures Straddle(first, next, shift + 1) == ShiftIn(Straddle(first, next, shift), Bit(next, shift))
  {
    if shift == 0 {
      assert (first << 1) | (next >> 7) == ShiftIn(first, next & 0x80 != 0);
    } else if shift == 1 {
      assert (first << 2) | (next >> 6) == ShiftIn((first << 1) | (next >> 7), next & 0x40 != 0);
    } else if shift == 2 {
      assert (first << 3) | (next >> 5) == ShiftIn((first << 2) | (next >> 6), next & 0x20 != 0);
    } else if shift == 3 {
      assert (first << 4) | (next >> 4) == ShiftIn((first << 3) | (next >> 5), next & 0x10 != 0);
    } else if shift == 4 {
      assert (first << 5) | (next >> 3) == ShiftIn((first << 4) | (next >> 4), next & 0x08 != 0);
    } else if shift == 5 {
      assert (first << 6) | (next >> 2) == ShiftIn((first << 5) | (next >> 3), next & 0x04 != 0);
    } else {
      assert (first << 7) | (next >> 1) == ShiftIn((first << 6) | (next >> 2), next & 0x02 != 0);
    }
  }

  lemma {:induction false} StraddleBits(first: bv8, next: bv8, shift: nat, i: nat)
    requires shift < 8 && i < 8
    ensures Bit(Straddle(first, next, shift), i) == if shift + i < 8 then Bit(first, shift + i) else Bit(next, shift + i - 8)
    decreases shift
  {
    hide Bit, ShiftIn;
    if shift > 0 {
      StraddleNext(first, next, shift - 1);
      ShiftInBits(Straddle(first, next, shift - 1), Bit(next, shift - 1));
      if i < 7 {
        StraddleBits(first, next, shift - 1, i + 1);
      }
    }
  }

  function ByteAt(w: SampleWindow, pos: nat): Option<bv8>
    requires WindowOk(w)
  {
    if pos >= w.len then None else Some(w.bytes[pos])
  }

  function SampleBit(w: SampleWindow, bitpos: int): bool
    requires WindowOk(w)
  {
    if bitpos < 0 then Bit(w.bytes[0], 0)
    else if bitpos >= w.bits then true
    else Bit(w.bytes[bitpos / 8], bitpos % 8)
  }

  function SampleBits(w: SampleWindow, shifted: int): (s: seq<bool>)
    requires WindowOk(w)
    ensures |s| == 8
  {
    seq(8, i requires 0 <= i < 8 => SampleBit(w, shifted + i))
  }

  /** The eight levels from `shifted` on, as one byte. */
  function Peek8(w: SampleWindow, shifted: int): bv8
    requires WindowOk(w)
  {
    if shifted >= 0 then
      match (ByteAt(w, shifted / 8), ByteAt(w, shifted / 8 + 1))
      case (None, _) => 0xFF
      case (Some(first), Some(next)) => Straddle(first, next, shifted % 8)
      case (Some(first), None) => Straddle(first, 0, shifted % 8)
    else Folded(SampleBits(w, shifted))
  }

  /** The same eight levels read off the level sequence. */
  function PeekLevels(l: seq<bool>, bits: nat, shifted: int): (p: seq<bool>)
    requires |l| == bits + 8
    ensures |p| == 8
  {
    seq(8, i requires 0 <= i < 8 =>
      if shifted >= |l| then true
      else if shifted >= 0 then shifted + i < |l| && l[shifted + i]
      else if shifted + i < 0 then l[0]
      else shifted + i >= bits || l[shifted + i])
  }

  /** Shifting bytes reads the levels. */
  lemma PeekReadsLevels(w: SampleWindow, shifted: int, i: nat)
    requires WindowOk(w) && i < 8
    ensures Bit(Peek8(w, shifted), i) == PeekLevels(Levels(w), w.bits, shifted)[i]
  {
    hide Bit, Straddle, Folded;
    if shifted < 0 {
      FoldedBits(SampleBits(w, shifted), i);
      assert SampleBits(w, shifted)[i] == SampleBit(w, shifted + i);
      if 0 <= shifted + i < w.bits {
        assert Levels(w)[shifted + i] == LevelAt(w.bytes, shifted + i);
      }
    } else if shifted / 8 >= w.len {
      ZeroBits(i);
    } else {
      var next := ByteAt(w, shifted / 8 + 1);
      StraddleBits(w.bytes[shifted / 8], if next.Some? then next.value else 0, shifted % 8, i);
      if next.None? && shifted % 8 + i >= 8 {
        ZeroBits(shifted % 8 + i - 8);
      }
    }
  }

  // ---- Weights ----

  function Signed(high: bool, weight: int): int {
    if high then weight else -weight
  }

  /** How much eight levels look like a bit: odd for a one (dominant first), even for a zero. */
  function Weight(p: seq<bool>): nat
    requires |p| == 8
  {
    var first := Signed(p[0], 1) + Signed(p[1], 2) + Signed(p[2], 2) + Signed(p[3], 1);
    var second := Signed(p[4], 1) + Signed(p[5], 2) + Signed(p[6], 2) + Signed(p[7], 1);
    var w := (first - second) * 2;
    if w < 0 then -w + 1 else w
  }

  function ByteBits(b: bv8): (p: seq<bool>)
    ensures |p| == 8
  {
    [Bit(b, 0), Bit(b, 1), Bit(b, 2), Bit(b, 3), Bit(b, 4), Bit(b, 5), Bit(b, 6), Bit(b, 7)]
  }

  datatype PeekStop = Go | AtIdle | AtHeld

  function StopOf(p: seq<bool>): PeekStop
    requires |p| == 8
  {
    if p == seq(8, _ => true) then AtIdle
    else if p == seq(8, _ => false) then AtHeld
    else Go
  }

  /** The best weight at a position or one tick to either side, and how far the next bit is. */
  datatype Weighed = Weighed(weight: nat, advance: nat, stop: PeekStop)

  function WeighAround(l: seq<bool>, bits: nat, shifted: int): Weighed
    requires |l| == bits + 8
  {
    var centre := Weight(PeekLevels(l, bits, shifted));
    var early := Weight(PeekLevels(l, bits, shifted - 1));
    var late := PeekLevels(l, bits, shifted + 1);
    var w, a := if centre < early then early else centre, if centre < early then 7 else 8;
    if w < Weight(late) then Weighed(Weight(late), 9, StopOf(late)) else Weighed(w, a, StopOf(late))
  }

  // ---- One phase ----

  datatype PhaseDecode = PhaseDecode(bitLen: nat, phase: int, score: nat, data: seq<bv8>)

  function Failed(phase: int): PhaseDecode {
    PhaseDecode(0, phase, 0, seq(DECODED_BYTES, _ => 0))
  }

  function SatSum(x: nat, y: nat): nat {
    if x + y > 0xFFFF then 0xFFFF else x + y
  }

  /** Decoded bits as bytes, eight to each, in as many bytes as there are. */
  function Packed(bits: seq<bool>): (d: seq<bv8>)
    ensures |d| == DECODED_BYTES
  {
    seq(DECODED_BYTES, j requires 0 <= j < DECODED_BYTES => Folded(ByteSlice(bits, j)))
  }

  function ByteSlice(bits: seq<bool>, j: nat): seq<bool> {
    if |bits| <= 8 * j then [] else if |bits| <= 8 * j + 8 then bits[8 * j..] else bits[8 * j..8 * j + 8]
  }

  /** What one phase decodes: `count` bits so far, the first of which is the start bit and not kept. */
  function DecodeFrom(l: seq<bool>, bits: nat, maxBits: nat, phase: int, bitpos: nat, count: nat, score: nat,
                      got: seq<bool>): PhaseDecode
    requires |l| == bits + 8
    decreases bits - bitpos
  {
    var done := PhaseDecode(if count > 1 then count - 1 else count, phase, score, Packed(got));
    if bitpos + 1 >= bits || count > maxBits then done
    else
      var w := WeighAround(l, bits, bitpos + phase);
      match w.stop
      case AtIdle => done
      case AtHeld => Failed(phase)
      case Go =>
        DecodeFrom(l, bits, maxBits, phase, bitpos + w.advance, count + 1, SatSum(score, w.weight),
                   if count == 0 then got else got + [w.weight % 2 == 1])
  }

  function Decode(w: SampleWindow, maxBits: nat, phase: int): PhaseDecode
    requires WindowOk(w)
  {
    DecodeFrom(Levels(w), w.bits, maxBits, phase, 1, 0, 0, [])
  }

  // ---- The source's loop ----

  lemma PeekBits(w: SampleWindow, shifted: int)
    requires WindowOk(w)
    ensures ByteBits(Peek8(w, shifted)) == PeekLevels(Levels(w), w.bits, shifted)
  {
    hide Bit, Peek8, PeekLevels;
    forall i: nat | i < 8 ensures ByteBits(Peek8(w, shifted))[i] == PeekLevels(Levels(w), w.bits, shifted)[i] {
      PeekReadsLevels(w, shifted, i);
    }
  }

  method WeightedPeekAround(w: SampleWindow, shifted: int) returns (r: Weighed)
    requires WindowOk(w)
    ensures r == WeighAround(Levels(w), w.bits, shifted)
  {
    hide Bit, Peek8, PeekLevels, Weight, StopOf, Levels;
    PeekBits(w, shifted);
    PeekBits(w, shifted - 1);
    PeekBits(w, shifted + 1);
    var best := Weight(ByteBits(Peek8(w, shifted)));
    var advance := 8;
    var early := Weight(ByteBits(Peek8(w, shifted - 1)));
    if best < early {
      best, advance := early, 7;
    }
    var late := ByteBits(Peek8(w, shifted + 1));
    if best < Weight(late) {
      best, advance := Weight(late), 9;
    }
    return Weighed(best, advance, StopOf(late));
  }

  /** Push one bit into the byte it belongs to. */
  function PushBit(data: seq<bv8>, index: nat, one: bool): seq<bv8>
    requires |data| == DECODED_BYTES
  {
    if index / 8 >= DECODED_BYTES then data
    else data[index / 8 := ShiftIn(if index % 8 == 0 then 0 else data[index / 8], one)]
  }

  lemma SliceGrows(bits: seq<bool>, one: bool, k: nat)
    ensures ByteSlice(bits + [one], k) == if k == |bits| / 8 then ByteSlice(bits, k) + [one] else ByteSlice(bits, k)
    ensures k == |bits| / 8 && |bits| % 8 == 0 ==> ByteSlice(bits, k) == []
  {
  }

  lemma FoldedGrows(s: seq<bool>, one: bool)
    ensures Folded(s + [one]) == ShiftIn(Folded(s), one)
  {
    hide ShiftIn;
    assert (s + [one])[..|s|] == s;
  }

  lemma PushPacks(bits: seq<bool>, one: bool)
    ensures PushBit(Packed(bits), |bits|, one) == Packed(bits + [one])
  {
    hide ShiftIn, Folded, ByteSlice;
    var j := |bits| / 8;
    var p, q := PushBit(Packed(bits), |bits|, one), Packed(bits + [one]);
    EmptyFolds();
    forall k: nat | k < DECODED_BYTES ensures p[k] == q[k] {
      SliceGrows(bits, one, k);
      FoldedGrows(ByteSlice(bits, k), one);
    }
  }

  lemma EmptyFolds()
    ensures Folded([]) == 0
  {
  }

  method DecodePhase(w: SampleWindow, maxBits: nat, phase: int) returns (out: PhaseDecode)
    requires WindowOk(w)
    ensures out == Decode(w, maxBits, phase)
  {
    hide WeighAround, Levels, Packed, PushBit;
    ghost var got: seq<bool> := [];
    EmptyPacks();
    out := Failed(phase);
    var bitpos := 1;
    while bitpos + 1 < w.bits
      invariant Decode(w, maxBits, phase)
             == DecodeFrom(Levels(w), w.bits, maxBits, phase, bitpos, out.bitLen, out.score, got)
      invariant out.phase == phase && out.data == Packed(got)
      invariant |got| == if out.bitLen == 0 then 0 else out.bitLen - 1
      decreases w.bits - bitpos
    {
      if out.bitLen > maxBits {
        break;
      }
      var r := WeightedPeekAround(w, bitpos + phase);
      Advances(Levels(w), w.bits, bitpos + phase);
      match r.stop {
        case AtIdle => break;
        case AtHeld => return Failed(phase);
        case Go =>
      }
      var data := out.data;
      if out.bitLen != 0 {
        PushPacks(got, r.weight % 2 == 1);
        data := PushBit(data, out.bitLen - 1, r.weight % 2 == 1);
        got := got + [r.weight % 2 == 1];
      }
      out := PhaseDecode(out.bitLen + 1, phase, SatSum(out.score, r.weight), data);
      bitpos := bitpos + r.advance;
    }
    if out.bitLen > 1 {
      out := out.(bitLen := out.bitLen - 1);
    }
  }

  lemma Advances(l: seq<bool>, bits: nat, shifted: int)
    requires |l| == bits + 8
    ensures 7 <= WeighAround(l, bits, shifted).advance <= 9
  {
  }

  lemma EmptyPacks()
    ensures Packed([]) == seq(DECODED_BYTES, _ => 0)
  {
  }
}
