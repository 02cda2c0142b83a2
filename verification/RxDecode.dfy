/** What a task reads out of a completed capture (rx_decode.rs, frame_length.rs). */
module RxDecode {
  import opened Wrappers
  import opened Bits
  import opened Fsm
  import opened Manchester
  import opened PhaseSearch

  const FORWARD_LENGTH_MIN_SAMPLES := 19
  const FORWARD24_LENGTH_MIN_SAMPLES := 23

  datatype FrameLengthClass = Backward | Forward

  function LengthClass(sampleCount: nat): FrameLengthClass {
    if sampleCount >= FORWARD_LENGTH_MIN_SAMPLES then Forward else Backward
  }

  predicate IsForward24Length(sampleCount: nat) {
    sampleCount >= FORWARD24_LENGTH_MIN_SAMPLES
  }

  /** The levels of a capture as far as it counts samples. */
  function CaptureLevels(c: Capture): (l: seq<bool>)
    requires |c.samples| == SAMPLE_BUF_LEN
  {
    var n := if c.sampleCount < SAMPLE_BUF_LEN then c.sampleCount else SAMPLE_BUF_LEN;
    seq(8 * n, m requires 0 <= m < 8 * n => LevelAt(c.samples, m))
  }

  function BackwardByte(c: Capture): Option<bv8>
    requires |c.samples| == SAMPLE_BUF_LEN
  {
    var found := Found(WindowOf(c.samples, c.sampleCount), BACKWARD_FRAME_BIT_LENGTHS);
    if found.Some? && found.value.bitLen == 8 && |found.value.data| > 0 then Some(found.value.data[0]) else None
  }

  method TryDecode(c: Capture, preferred: set<nat>) returns (found: Option<PhaseDecode>)
    requires |c.samples| == SAMPLE_BUF_LEN
    ensures found == Found(WindowOf(c.samples, c.sampleCount), preferred)
  {
    hide Found;
    var w := OfCapture(c.samples, c.sampleCount);
    var search := new BestPhaseSearch(preferred);
    found := search.Run(w);
  }

  method DecodeBackwardByte(c: Capture) returns (r: Option<bv8>)
    requires |c.samples| == SAMPLE_BUF_LEN
    ensures r == BackwardByte(c)
  {
    hide Found;
    var found := TryDecode(c, BACKWARD_FRAME_BIT_LENGTHS);
    if found.Some? && found.value.bitLen == 8 && |found.value.data| > 0 {
      return Some(found.value.data[0]);
    }
    return None;
  }

  // ---- Sniffed frames ----

  datatype SniffedFrame = Forward16(hi: bv8, lo: bv8) | Backward8(byte: bv8) | Forward24(a: bv8, b: bv8, c: bv8)
                        | UnsupportedLength(bits: nat) | DecodeFailed

  /** The interrupt may have searched already; then its result is taken as it is. */
  datatype IsrDecode = NotDecoded | Decoded(found: Option<PhaseDecode>)

  function FrameOf(found: Option<PhaseDecode>): SniffedFrame
    requires found.Some? ==> |found.value.data| == DECODED_BYTES
  {
    match found
    case None => DecodeFailed
    case Some(d) =>
      if d.bitLen == 8 then Backward8(d.data[0])
      else if d.bitLen == 16 then Forward16(d.data[0], d.data[1])
      else if d.bitLen == 24 then Forward24(d.data[0], d.data[1], d.data[2])
      else UnsupportedLength(d.bitLen)
  }

  method DecodeSniffed(c: Capture, isr: IsrDecode) returns (frame: SniffedFrame)
    requires |c.samples| == SAMPLE_BUF_LEN
    requires isr.Decoded? && isr.found.Some? ==> |isr.found.value.data| == DECODED_BYTES
    ensures var found := Found(WindowOf(c.samples, c.sampleCount), SNIFFED_BIT_LENGTHS);
            found.Some? ==> |found.value.data| == DECODED_BYTES
    ensures isr.Decoded? ==> frame == FrameOf(isr.found)
    ensures isr.NotDecoded? ==> frame == FrameOf(Found(WindowOf(c.samples, c.sampleCount), SNIFFED_BIT_LENGTHS))
  {
    hide Found, At;
    var w := WindowOf(c.samples, c.sampleCount);
    FoundHasBytes(w, SNIFFED_BIT_LENGTHS);
    match isr {
      case Decoded(found) =>
        frame := FrameOf(found);
      case NotDecoded =>
        var found := TryDecode(c, SNIFFED_BIT_LENGTHS);
        frame := FrameOf(found);
    }
  }

  lemma {:induction false} DecodeHasBytes(l: seq<bool>, bits: nat, maxBits: nat, phase: int, bitpos: nat, count: nat,
                                         score: nat, got: seq<bool>)
    requires |l| == bits + 8
    ensures |DecodeFrom(l, bits, maxBits, phase, bitpos, count, score, got).data| == DECODED_BYTES
    decreases bits - bitpos
  {
    hide Packed, WeighAround;
    if bitpos + 1 < bits && count <= maxBits {
      var r := WeighAround(l, bits, bitpos + phase);
      Advances(l, bits, bitpos + phase);
      if r.stop.Go? {
        DecodeHasBytes(l, bits, maxBits, phase, bitpos + r.advance, count + 1, SatSum(score, r.weight),
                       if count == 0 then got else got + [r.weight % 2 == 1]);
      }
    }
  }

  lemma FoundHasBytes(w: SampleWindow, preferred: set<nat>)
    requires WindowOk(w)
    ensures var found := Found(w, preferred); found.Some? ==> |found.value.data| == DECODED_BYTES
  {
    hide Better, DecodeFrom, Levels;
    forall phase: int ensures |At(w, phase).data| == DECODED_BYTES {
      DecodeHasBytes(Levels(w), w.bits, MAX_DECODED_BITS, phase, 1, 0, 0, []);
    }
  }

  // ---- The longest dominant run ----

  ghost predicate LowRun(l: seq<bool>, from: nat, len: nat) {
    from + len <= |l| && forall k | from <= k < from + len :: !l[k]
  }

  /** No dominant run of the levels is longer, and one is as long. */
  ghost predicate IsLongest(l: seq<bool>, best: nat) {
    && (exists from: nat :: LowRun(l, from, best))
    && forall from: nat, len: nat | LowRun(l, from, len) :: len <= best
  }

  /** The dominant run the levels end in. */
  ghost predicate EndsLow(l: seq<bool>, run: nat) {
    run <= |l| && LowRun(l, |l| - run, run) && (run < |l| ==> l[|l| - run - 1])
  }

  lemma LongestGrows(l: seq<bool>, best: nat, run: nat, high: bool)
    requires IsLongest(l, best) && EndsLow(l, run)
    ensures var run' := if high then 0 else run + 1;
            var best' := if run' > best then run' else best;
            EndsLow(l + [high], run') && IsLongest(l + [high], best')
  {
    var l' := l + [high];
    var run' := if high then 0 else run + 1;
    var best' := if run' > best then run' else best;
    assert EndsLow(l', run');
    var from: nat :| LowRun(l, from, best);
    assert LowRun(l', from, best);
    assert LowRun(l', |l'| - run', run');
    forall a: nat, n: nat | LowRun(l', a, n) ensures n <= best' {
      if a + n <= |l| {
        assert forall k | a <= k < a + n :: l'[k] == l[k];
        assert LowRun(l, a, n);
      }
    }
  }

  lemma NothingRuns(l: seq<bool>)
    requires l == []
    ensures IsLongest(l, 0) && EndsLow(l, 0)
  {
    assert LowRun(l, 0, 0);
  }

  lemma CaptureSize(c: Capture)
    requires |c.samples| == SAMPLE_BUF_LEN
    ensures |CaptureLevels(c)| == 8 * if c.sampleCount < SAMPLE_BUF_LEN then c.sampleCount else SAMPLE_BUF_LEN
  {
  }

  lemma CaptureLevel(c: Capture, i: nat, j: nat)
    requires |c.samples| == SAMPLE_BUF_LEN && i < c.sampleCount && i < SAMPLE_BUF_LEN && j < 8
    ensures 8 * i + j < |CaptureLevels(c)| && CaptureLevels(c)[8 * i + j] == Bit(c.samples[i], j)
  {
    hide Bit;
    assert (8 * i + j) / 8 == i && (8 * i + j) % 8 == j;
  }

  method LongestDominantRunTicks(c: Capture) returns (best: nat)
    requires |c.samples| == SAMPLE_BUF_LEN
    ensures IsLongest(CaptureLevels(c), best)
  {
    hide Bit, IsLongest, EndsLow, CaptureLevels;
    var n := if c.sampleCount < SAMPLE_BUF_LEN then c.sampleCount else SAMPLE_BUF_LEN;
    ghost var l := CaptureLevels(c);
    CaptureSize(c);
    best := 0;
    var run := 0;
    NothingRuns(l[..0]);
    for i := 0 to n
      invariant IsLongest(l[..8 * i], best) && EndsLow(l[..8 * i], run)
    {
      var shift := 8;
      while shift > 0
        invariant 0 <= shift <= 8
        invariant var m := 8 * i + 8 - shift; IsLongest(l[..m], best) && EndsLow(l[..m], run)
      {
        ghost var m := 8 * i + 8 - shift;
        var high := Bit(c.samples[i], 8 - shift);
        CaptureLevel(c, i, 8 - shift);
        assert l[..m + 1] == l[..m] + [high];
        LongestGrows(l[..m], best, run, high);
        shift := shift - 1;
        if !high {
          run := run + 1;
          if run > best {
            best := run;
          }
        } else {
          run := 0;
        }
      }
    }
    assert l[..8 * n] == l;
  }

  /** The line counts as held exactly when some dominant run is long enough. */
  method IsLineHeld(c: Capture) returns (held: bool)
    requires |c.samples| == SAMPLE_BUF_LEN
    ensures held <==> exists from: nat :: LowRun(CaptureLevels(c), from, LINE_HELD_TICKS)
  {
    hide CaptureLevels;
    var best := LongestDominantRunTicks(c);
    var l := CaptureLevels(c);
    if best >= LINE_HELD_TICKS {
      ghost var from: nat :| LowRun(l, from, best);
      assert LowRun(l, from, LINE_HELD_TICKS);
    }
    held := best >= LINE_HELD_TICKS;
  }
}
