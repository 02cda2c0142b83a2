/**
 Answers timed in nanoseconds and sampled by a clock of another period (overlap.rs). A lone
 answer reads back as itself at every sampling phase.
 */
module Overlap {
  import opened Wrappers
  import opened Bits
  import opened Fsm
  import opened Reception
  import opened Manchester
  import opened PhaseSearch
  import opened RxDecode
  import opened FrameDecode

  // Table 21 of IEC 62386-101
  const HALF_BIT_NS := 416_667
  const BACKWARD_HALF_BITS := 18
  const TICK_NS := PHY_TICK_US * 1_000
  const CAPTURE_TICKS := SAMPLE_BUF_LEN * 8
  const IN_WINDOW_PRE_IDLE_TICKS := 70

  datatype Answer = Answer(value: bv8, start: nat)

  predicate HalfBitDominant(value: bv8, half: nat)
    requires half < BACKWARD_HALF_BITS
  {
    var one := half / 2 == 0 || Bit(value, half / 2 - 1);
    one == (half % 2 == 0)
  }

  predicate AnswerDominant(a: Answer, at: nat) {
    && at >= a.start
    && (at - a.start) / HALF_BIT_NS < BACKWARD_HALF_BITS
    && HalfBitDominant(a.value, (at - a.start) / HALF_BIT_NS)
  }

  /** The line is dominant when any answer drives it. */
  predicate LineDominant(answers: seq<Answer>, at: nat) {
    exists i | 0 <= i < |answers| :: AnswerDominant(answers[i], at)
  }

  function TickAt(phase: nat, k: nat): nat {
    phase + k * TICK_NS
  }

  function LastDominant(answers: seq<Answer>): (end: nat)
    ensures forall i | 0 <= i < |answers| :: answers[i].start + BACKWARD_HALF_BITS * HALF_BIT_NS <= end
  {
    if answers == [] then 0
    else
      var rest := LastDominant(answers[1..]);
      var own := answers[0].start + BACKWARD_HALF_BITS * HALF_BIT_NS;
      assert forall i | 1 <= i < |answers| :: answers[i] == answers[1..][i - 1];
      if own > rest then own else rest
  }

  /** The search stops at the end of the last answer and yet misses no dominant tick. */
  method FirstDominantTick(answers: seq<Answer>, phase: nat) returns (first: Option<nat>)
    ensures first.Some? ==> LineDominant(answers, TickAt(phase, first.value))
                            && forall k: nat | k < first.value :: !LineDominant(answers, TickAt(phase, k))
    ensures first.None? ==> forall k: nat :: !LineDominant(answers, TickAt(phase, k))
  {
    hide HalfBitDominant;
    var end := LastDominant(answers);
    var k := 0;
    while TickAt(phase, k) <= end
      invariant forall j: nat | j < k :: !LineDominant(answers, TickAt(phase, j))
      decreases end - TickAt(phase, k)
    {
      if LineDominant(answers, TickAt(phase, k)) {
        return Some(k);
      }
      k := k + 1;
    }
    forall j: nat ensures !LineDominant(answers, TickAt(phase, j)) {
      if j >= k {
        assert TickAt(phase, j) > end;
      }
    }
    return None;
  }

  // ---- The capture ----

  /** The levels of the line from tick `first` on. */
  function LineLevels(answers: seq<Answer>, phase: nat, first: nat, n: nat): (l: seq<bool>)
    ensures |l| == n
    ensures forall m | 0 <= m < n :: l[m] == !LineDominant(answers, TickAt(phase, first + m))
  {
    seq(n, m requires 0 <= m < n => !LineDominant(answers, TickAt(phase, first + m)))
  }

  /** A capture holds the first `n` levels, each in its bit, and nothing after them. */
  predicate Stores(samples: seq<bv8>, l: seq<bool>) {
    && |samples| == SAMPLE_BUF_LEN && |l| <= CAPTURE_TICKS
    && forall m | 0 <= m < CAPTURE_TICKS :: LevelAt(samples, m) == (m < |l| && l[m])
  }

  /** It ends with the 16th recessive tick in a row, or when it is full. */
  predicate Ends(l: seq<bool>) {
    && (|l| == CAPTURE_TICKS || TrailingHigh(l) == RX_IDLE_LINE_HIGH_TICKS)
    && forall k | 0 <= k < |l| :: TrailingHigh(l[..k]) < RX_IDLE_LINE_HIGH_TICKS
  }

  predicate Captured(c: Capture, answers: seq<Answer>, phase: nat, first: nat, n: nat) {
    var l := LineLevels(answers, phase, first, n);
    && Stores(c.samples, l) && Ends(l)
    && c.sampleCount == (n + 7) / 8 && c.preIdle == IN_WINDOW_PRE_IDLE_TICKS
  }

  lemma CapturedSize(c: Capture, answers: seq<Answer>, phase: nat, first: nat, n: nat)
    requires Captured(c, answers, phase, first, n)
    ensures |c.samples| == SAMPLE_BUF_LEN
  {
  }

  /** `1 << (7 - i)`, written out. */
  function BitMask(i: nat): bv8
    requires i < 8
  {
    if i == 0 then 0x80 else if i == 1 then 0x40 else if i == 2 then 0x20 else if i == 3 then 0x10
    else if i == 4 then 0x08 else if i == 5 then 0x04 else if i == 6 then 0x02 else 0x01
  }

  function SetRecessive(samples: seq<bv8>, tick: nat): (s: seq<bv8>)
    ensures |s| == |samples|
  {
    if tick / 8 < |samples| then samples[tick / 8 := samples[tick / 8] | BitMask(tick % 8)] else samples
  }

  lemma MaskSets(b: bv8, i: nat, k: nat)
    requires i < 8 && k < 8
    ensures Bit(b | BitMask(i), k) == (Bit(b, k) || k == i)
  {
  }

  lemma StoresNext(samples: seq<bv8>, l: seq<bool>, high: bool)
    requires Stores(samples, l) && |l| < CAPTURE_TICKS
    ensures Stores(if high then SetRecessive(samples, |l|) else samples, l + [high])
  {
    hide Bit, BitMask;
    var s := if high then SetRecessive(samples, |l|) else samples;
    forall m | 0 <= m < CAPTURE_TICKS ensures LevelAt(s, m) == (m < |l| + 1 && (l + [high])[m]) {
      assert LevelAt(samples, m) == (m < |l| && l[m]);
      if high && m / 8 == |l| / 8 {
        MaskSets(samples[m / 8], |l| % 8, m % 8);
      }
    }
  }

  /** What the line of these answers looks like to a receiver. */
  method OverlappingBackwardCapture(answers: seq<Answer>, phase: nat)
    returns (c: Capture, first: Option<nat>, ghost recorded: nat)
    ensures first.Some? ==> LineDominant(answers, TickAt(phase, first.value))
                            && (forall k: nat | k < first.value :: !LineDominant(answers, TickAt(phase, k)))
                            && Captured(c, answers, phase, first.value, recorded)
    ensures first.None? ==> (forall k: nat :: !LineDominant(answers, TickAt(phase, k)))
                            && c == Capture(seq(SAMPLE_BUF_LEN, _ => 0), 0, IN_WINDOW_PRE_IDLE_TICKS)
  {
    hide Bit, LineDominant, SetRecessive, Stores;
    var samples: seq<bv8> := seq(SAMPLE_BUF_LEN, _ => 0);
    recorded := 0;
    first := FirstDominantTick(answers, phase);
    if first.None? {
      return Capture(samples, 0, IN_WINDOW_PRE_IDLE_TICKS), first, 0;
    }
    var quiet, n := 0, 0;
    StoresNothing(samples);
    assert LineLevels(answers, phase, first.value, 0) == [];
    while n < CAPTURE_TICKS && quiet < RX_IDLE_LINE_HIGH_TICKS
      invariant n <= CAPTURE_TICKS
      invariant var l := LineLevels(answers, phase, first.value, n);
                && Stores(samples, l) && quiet == TrailingHigh(l) <= RX_IDLE_LINE_HIGH_TICKS
                && forall k | 0 <= k < n :: TrailingHigh(l[..k]) < RX_IDLE_LINE_HIGH_TICKS
      decreases CAPTURE_TICKS - n
    {
      ghost var l := LineLevels(answers, phase, first.value, n);
      var high := !LineDominant(answers, TickAt(phase, first.value + n));
      StoresNext(samples, l, high);
      LevelsGrow(answers, phase, first.value, n);
      Grown(l, high);
      if high {
        quiet := quiet + 1;
        samples := SetRecessive(samples, n);
      } else {
        quiet := 0;
      }
      PrefixesGrow(l, high);
      n := n + 1;
    }
    recorded := n;
    c := Capture(samples, (n + 7) / 8, IN_WINDOW_PRE_IDLE_TICKS);
  }

  lemma StoresNothing(samples: seq<bv8>)
    requires samples == seq(SAMPLE_BUF_LEN, _ => 0)
    ensures Stores(samples, [])
  {
    hide Bit;
    forall m | 0 <= m < CAPTURE_TICKS ensures !LevelAt(samples, m) {
      ZeroBits(m % 8);
    }
  }

  lemma LevelsGrow(answers: seq<Answer>, phase: nat, first: nat, n: nat)
    ensures LineLevels(answers, phase, first, n + 1)
         == LineLevels(answers, phase, first, n) + [!LineDominant(answers, TickAt(phase, first + n))]
  {
  }

  lemma PrefixesGrow(l: seq<bool>, high: bool)
    requires TrailingHigh(l) < RX_IDLE_LINE_HIGH_TICKS
    requires forall k | 0 <= k < |l| :: TrailingHigh(l[..k]) < RX_IDLE_LINE_HIGH_TICKS
    ensures forall k | 0 <= k < |l| + 1 :: TrailingHigh((l + [high])[..k]) < RX_IDLE_LINE_HIGH_TICKS
  {
    forall k | 0 <= k < |l| + 1 ensures TrailingHigh((l + [high])[..k]) < RX_IDLE_LINE_HIGH_TICKS {
      assert (l + [high])[..k] == l[..k];
      if k == |l| {
        assert l[..k] == l;
      }
    }
  }

  // ---- A lone answer ----

  function AnswerFrame(value: bv8): (f: seq<bool>)
    ensures |f| == 9
  {
    [true] + ByteBits(value)
  }

  /** How many half-bits pass before the sampling clock gains a tick. */
  function Stretch(offset: nat): nat {
    offset / 667
  }

  /** A half-bit starts at the first tick not before its time. */
  lemma HalfStartOnTime(offset: nat, j: nat, m: nat)
    requires offset < TICK_NS && j <= BACKWARD_HALF_BITS
    ensures m >= HalfStart(Stretch(offset), j) <==> offset + m * TICK_NS >= j * HALF_BIT_NS
  {
    assert j * HALF_BIT_NS == 4 * j * TICK_NS + 667 * j;
    if m < 4 * j {
      assert offset + m * TICK_NS < 4 * j * TICK_NS;
    } else if m > 4 * j {
      assert m * TICK_NS >= 4 * j * TICK_NS + TICK_NS;
    }
  }

  /** The half-bit on the line at tick `m`, by the nanosecond clock and by the tick count. */
  lemma SameHalf(offset: nat, m: nat)
    requires offset < TICK_NS
    ensures var j := (offset + m * TICK_NS) / HALF_BIT_NS;
            var h := HalfOf(Stretch(offset), m);
            h == j || (h >= BACKWARD_HALF_BITS && j >= BACKWARD_HALF_BITS)
  {
    var s := Stretch(offset);
    var h := HalfOf(s, m);
    HalfOfIff(s, m, h);
    HalfOfIff(s, m, BACKWARD_HALF_BITS);
    if h < BACKWARD_HALF_BITS {
      HalfStartOnTime(offset, h, m);
      HalfStartOnTime(offset, h + 1, m);
    } else {
      assert HalfStart(s, BACKWARD_HALF_BITS) <= HalfStart(s, h);
      HalfStartOnTime(offset, BACKWARD_HALF_BITS, m);
    }
  }

  lemma AnswerLevel(value: bv8, start: nat, at: nat, offset: nat, m: nat)
    requires offset < TICK_NS && at == start + offset + m * TICK_NS
    ensures LineDominant([Answer(value, start)], at) == !LevelOf(AnswerFrame(value), Stretch(offset), m)
  {
    hide Bit, HalfOf;
    SameHalf(offset, m);
    var a := Answer(value, start);
    assert [a][0] == a;
    assert LineDominant([a], at) == AnswerDominant(a, at);
    var h := (offset + m * TICK_NS) / HALF_BIT_NS;
    if h < BACKWARD_HALF_BITS {
      HalfIsLevel(value, h);
    }
  }

  lemma HalfIsLevel(value: bv8, h: nat)
    requires h < BACKWARD_HALF_BITS
    ensures HalfBitDominant(value, h) == !HalfLevel(AnswerFrame(value), h)
  {
    hide Bit;
    assert h >= 2 ==> AnswerFrame(value)[h / 2] == ByteBits(value)[h / 2 - 1] == Bit(value, h / 2 - 1);
  }

  /** The capture of a lone answer goes on past the end of its frame. */
  lemma CaptureOutlastsFrame(l: seq<bool>, frame: seq<bool>, s: nat)
    requires frame != [] && FrameEnd(frame, s) + 10 <= CAPTURE_TICKS && Ends(l)
    requires forall m | 0 <= m < |l| :: l[m] == LevelOf(frame, s, m)
    ensures |l| >= FrameEnd(frame, s) + 10
  {
    hide LevelOf;
    if |l| < FrameEnd(frame, s) + 10 {
      TrailingHighBound(l);
      var p := |l| - RX_IDLE_LINE_HIGH_TICKS;
      var m := FrameIsLively(frame, s, p);
      assert false;
    }
  }

  lemma ByteReads(value: bv8)
    ensures Packed(ByteBits(value))[0] == value
  {
    hide Bit, Folded;
    var bits := ByteBits(value);
    assert ByteSlice(bits, 0) == bits;
    forall i: nat | i < 8 ensures Bit(Folded(bits), i) == Bit(value, i) {
      FoldedBits(bits, i);
    }
    SameBits(Folded(bits), value);
  }

  lemma WindowCarries(c: Capture, l: seq<bool>, frame: seq<bool>, s: nat)
    requires Stores(c.samples, l) && c.sampleCount == (|l| + 7) / 8
    requires FrameEnd(frame, s) + 10 <= |l| && forall m | 0 <= m < |l| :: l[m] == LevelOf(frame, s, m)
    ensures var w := WindowOf(c.samples, c.sampleCount);
            Carries(Levels(w), frame, s) && FrameEnd(frame, s) < w.bits
  {
    hide Bit, LevelOf;
    var w := WindowOf(c.samples, c.sampleCount);
    assert |l| <= 8 * c.sampleCount <= CAPTURE_TICKS;
    forall m | 0 <= m < FrameEnd(frame, s) + 10 ensures Levels(w)[m] == LevelOf(frame, s, m) {
      assert w.bytes[m / 8] == c.samples[m / 8];
      assert LevelAt(c.samples, m) == l[m];
    }
  }

  lemma CarriedAnswerReads(w: SampleWindow, value: bv8, s: nat)
    requires WindowOk(w) && Carries(Levels(w), AnswerFrame(value), s) && FrameEnd(AnswerFrame(value), s) < w.bits
    ensures var found := Found(w, BACKWARD_FRAME_BIT_LENGTHS);
            found.Some? && found.value.bitLen == 8 && found.value.data == Packed(ByteBits(value))
  {
    hide Packed, Levels, Carries, Decode, Bit;
    FrameDecodes(w, AnswerFrame(value), s);
    assert AnswerFrame(value)[1..] == ByteBits(value);
    assert 8 in [8];
  }

  /**
   A lone answer of any value, started at any time and sampled at any phase no later than one
   tick after its start, decodes to that value.
   */
  lemma LoneAnswerDecodes(value: bv8, start: nat, phase: nat, first: nat, c: Capture, n: nat)
    requires phase < start + TICK_NS
    requires LineDominant([Answer(value, start)], TickAt(phase, first))
    requires forall k: nat | k < first :: !LineDominant([Answer(value, start)], TickAt(phase, k))
    requires Captured(c, [Answer(value, start)], phase, first, n)
    ensures BackwardByte(c) == Some(value)
  {
    hide LineDominant, Bit, LevelOf, Stores, Ends, Found, Packed, Carries, Levels;
    CapturedSize(c, [Answer(value, start)], phase, first, n);
    var offset := FirstOffset(value, start, phase, first);
    var s, frame := Stretch(offset), AnswerFrame(value);
    var l := LineLevels([Answer(value, start)], phase, first, n);
    forall m | 0 <= m < |l| ensures l[m] == LevelOf(frame, s, m) {
      AnswerLevel(value, start, TickAt(phase, first + m), offset, m);
    }
    CaptureOutlastsFrame(l, frame, s);
    WindowCarries(c, l, frame, s);
    CarriedAnswerReads(WindowOf(c.samples, c.sampleCount), value, s);
    ByteReads(value);
  }

  /** The first tick not before the start of an answer is dominant. */
  lemma StartTick(value: bv8, start: nat, phase: nat) returns (k: nat, offset: nat)
    requires phase < start + TICK_NS
    ensures TickAt(phase, k) == start + offset && offset < TICK_NS
    ensures LineDominant([Answer(value, start)], TickAt(phase, k))
  {
    hide Bit;
    k := if phase >= start then 0 else (start - phase + TICK_NS - 1) / TICK_NS;
    offset := TickAt(phase, k) - start;
    var a := Answer(value, start);
    assert offset / HALF_BIT_NS == 0;
    assert [a][0] == a && AnswerDominant(a, TickAt(phase, k));
  }

  lemma FirstOffset(value: bv8, start: nat, phase: nat, first: nat) returns (offset: nat)
    requires phase < start + TICK_NS
    requires LineDominant([Answer(value, start)], TickAt(phase, first))
    requires forall k: nat | k < first :: !LineDominant([Answer(value, start)], TickAt(phase, k))
    ensures TickAt(phase, first) == start + offset && offset < TICK_NS
  {
    hide HalfBitDominant;
    var k;
    k, offset := StartTick(value, start, phase);
    assert first <= k;
    assert TickAt(phase, first) >= start;
  }

  // ---- Answers together ----

  /** Answers add up on the line: it is dominant when one part of them or the other makes it so. */
  lemma LineJoins(a: seq<Answer>, b: seq<Answer>, at: nat)
    ensures LineDominant(a + b, at) <==> LineDominant(a, at) || LineDominant(b, at)
  {
    hide AnswerDominant;
    if LineDominant(a, at) {
      var i :| 0 <= i < |a| && AnswerDominant(a[i], at);
      assert (a + b)[i] == a[i];
    }
    if LineDominant(b, at) {
      var i :| 0 <= i < |b| && AnswerDominant(b[i], at);
      assert (a + b)[|a| + i] == b[i];
    }
  }

  lemma EqualAnswersAreOne(answers: seq<Answer>, a: Answer, at: nat)
    requires answers != [] && forall i | 0 <= i < |answers| :: answers[i] == a
    ensures LineDominant(answers, at) <==> LineDominant([a], at)
  {
    hide AnswerDominant;
    assert [a][0] == a && answers[0] == a;
  }

  /** Any number of equal answers given at the same time read as the one value they have. */
  lemma EqualAnswersDecode(answers: seq<Answer>, a: Answer, phase: nat, first: nat, c: Capture, n: nat)
    requires answers != [] && forall i | 0 <= i < |answers| :: answers[i] == a
    requires phase < a.start + TICK_NS && LineDominant(answers, TickAt(phase, first))
    requires forall k: nat | k < first :: !LineDominant(answers, TickAt(phase, k))
    requires Captured(c, answers, phase, first, n)
    ensures BackwardByte(c) == Some(a.value)
  {
    hide LineDominant, BackwardByte, Stores, Ends;
    forall at: nat ensures LineDominant(answers, at) <==> LineDominant([a], at) {
      EqualAnswersAreOne(answers, a, at);
    }
    assert LineLevels(answers, phase, first, n) == LineLevels([a], phase, first, n);
    LoneAnswerDecodes(a.value, a.start, phase, first, c, n);
  }

  /** Sampling a lone answer and reading it back. */
  method SampleLoneAnswer(value: bv8, start: nat, phase: nat) returns (r: Option<bv8>)
    requires phase < start + TICK_NS
    ensures r == Some(value)
  {
    hide BackwardByte, Captured, LineDominant;
    var c, first, n := OverlappingBackwardCapture([Answer(value, start)], phase);
    if first.None? {
      ghost var k, offset := StartTick(value, start, phase);
      assert false;
    }
    CapturedSize(c, [Answer(value, start)], phase, first.value, n);
    LoneAnswerDecodes(value, start, phase, first.value, c, n);
    r := DecodeBackwardByte(c);
  }
}
