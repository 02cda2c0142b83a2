/**
 The decoder reads a Manchester frame back although one of its half-bits may be sampled five
 times instead of four: its 7, 8 or 9 tick steps find the next bit again (manchester.rs).
 */
module FrameDecode {
  import opened Fsm
  import opened Manchester

  // ---- The levels of a frame ----

  /** The tick at which half-bit `j` starts when half-bit `s` takes five ticks and every other four. */
  function HalfStart(s: nat, j: nat): nat {
    4 * j + if j > s then 1 else 0
  }

  /** The half-bit a tick falls into. */
  function HalfOf(s: nat, m: nat): nat {
    if m <= 4 * s + 3 then m / 4 else (m - 1) / 4
  }

  /** The level of half-bit `j` of the frame, recessive after its end: a one is low first. */
  function HalfLevel(frame: seq<bool>, j: nat): bool {
    if j >= 2 * |frame| then true else if j % 2 == 0 then !frame[j / 2] else frame[j / 2]
  }

  function LevelOf(frame: seq<bool>, s: nat, m: nat): bool {
    HalfLevel(frame, HalfOf(s, m))
  }

  /** The two ways to say when a half-bit is on the line agree. */
  lemma HalfOfIff(s: nat, m: nat, j: nat)
    ensures HalfOf(s, m) == j <==> HalfStart(s, j) <= m < HalfStart(s, j + 1)
  {
  }

  /** Where the frame ends. */
  function FrameEnd(frame: seq<bool>, s: nat): nat {
    HalfStart(s, 2 * |frame|)
  }

  /** Captured levels that carry a frame and some recessive ticks after it. */
  predicate Carries(l: seq<bool>, frame: seq<bool>, s: nat) {
    && FrameEnd(frame, s) + 10 <= |l|
    && forall m | 0 <= m < FrameEnd(frame, s) + 10 :: l[m] == LevelOf(frame, s, m)
  }

  // ---- Weights ----

  function Perfect(a: bool): (p: seq<bool>)
    ensures |p| == 8
  {
    [a, a, a, a, !a, !a, !a, !a]
  }

  /** Only a clean bit weighs 24 or more, and its parity is the bit. */
  lemma WeightIsPerfect(p: seq<bool>)
    requires |p| == 8
    ensures Weight(p) >= 24 <==> p == Perfect(p[0])
    ensures Weight(Perfect(true)) == 24 && Weight(Perfect(false)) == 25
  {
  }

  /** How far eight levels are from the clean bit that starts with `first`; the samples in the middle of a half-bit count twice. */
  function Distance(p: seq<bool>, first: bool): nat
    requires |p| == 8
  {
    HalfDistance(p[..4], first) + HalfDistance(p[4..], !first)
  }

  /** The same for a half-bit and its level. */
  function HalfDistance(h: seq<bool>, level: bool): nat
    requires |h| == 4
  {
    Off(h[0], level) + 2 * Off(h[1], level) + 2 * Off(h[2], level) + Off(h[3], level)
  }

  function Off(a: bool, b: bool): nat {
    if a == b then 0 else 1
  }

  lemma HalfIsOff(h: seq<bool>)
    requires |h| == 4
    ensures HalfDistance(h, true) + HalfDistance(h, false) == 6
    ensures Signed(h[0], 1) + Signed(h[1], 2) + Signed(h[2], 2) + Signed(h[3], 1) == 6 - 2 * HalfDistance(h, true)
  {
  }

  /** The weight is that of a clean bit less four for each step away from it, towards the nearer of the two. */
  lemma WeightIsDistance(p: seq<bool>)
    requires |p| == 8
    ensures Weight(p) == if Distance(p, true) <= 6 then 24 - 4 * Distance(p, true)
                         else 25 - 4 * Distance(p, false)
    ensures Distance(p, true) + Distance(p, false) == 12
  {
    hide Signed, HalfDistance;
    HalfIsOff(p[..4]);
    HalfIsOff(p[4..]);
  }

  /** The heaviest of the three places wins; of equal ones the expected place, and then the one before it. */
  lemma HeaviestWins(l: seq<bool>, bits: nat, shifted: int)
    requires |l| == bits + 8
    ensures var early := Weight(PeekLevels(l, bits, shifted - 1));
            var centre := Weight(PeekLevels(l, bits, shifted));
            var late := Weight(PeekLevels(l, bits, shifted + 1));
            match WeighAround(l, bits, shifted).advance
            case 7 => WeighAround(l, bits, shifted).weight == early && centre < early && late <= early
            case 8 => WeighAround(l, bits, shifted).weight == centre && early <= centre && late <= centre
            case 9 => WeighAround(l, bits, shifted).weight == late && early < late && centre < late
            case _ => false
  {
    hide Weight, PeekLevels, StopOf;
  }

  /** The step that finds a clean bit at, before or after the expected place. */
  lemma FindsClean(l: seq<bool>, bits: nat, q: nat, a: bool, advance: nat)
    requires |l| == bits + 8 && 1 <= q && q + 9 <= |l|
    requires 7 <= advance <= 9
    requires PeekLevels(l, bits, q - 8 + advance) == Perfect(a)
    requires advance != 7 ==> PeekLevels(l, bits, q - 1)[3] == PeekLevels(l, bits, q - 1)[4]
    requires advance != 8 ==> PeekLevels(l, bits, q)[3] == PeekLevels(l, bits, q)[4]
    requires advance != 9 ==> PeekLevels(l, bits, q + 1)[3] == PeekLevels(l, bits, q + 1)[4]
    requires PeekLevels(l, bits, q + 1)[0] == a && PeekLevels(l, bits, q + 1)[5] == !a
    ensures WeighAround(l, bits, q) == Weighed(if a then 24 else 25, advance, Go)
  {
    hide PeekLevels, Weight;
    WeightIsPerfect(PeekLevels(l, bits, q - 1));
    WeightIsPerfect(PeekLevels(l, bits, q));
    WeightIsPerfect(PeekLevels(l, bits, q + 1));
  }

  lemma PeeksFrame(l: seq<bool>, bits: nat, frame: seq<bool>, s: nat, q: nat)
    requires |l| == bits + 8 && Carries(l, frame, s) && q + 8 <= FrameEnd(frame, s) + 10
    ensures forall t | 0 <= t < 8 :: PeekLevels(l, bits, q)[t] == LevelOf(frame, s, q + t)
  {
    hide LevelOf;
  }

  // ---- One bit ----

  function BitStart(s: nat, i: nat): nat {
    HalfStart(s, 2 * i)
  }

  /** Where the decoder stands when it is about to read bit `i`. */
  predicate Aligned(s: nat, i: nat, p: nat) {
    if i == 0 then p == 1
    else p == BitStart(s, i) || (s == 2 * i - 1 && p == BitStart(s, i) - 1)
  }

  /** How far the decoder steps from there. */
  function StepFrom(s: nat, i: nat, p: nat): nat {
    if i == 0 then (if s == 0 then 8 else 7)
    else if p == BitStart(s, i) && s != 2 * i then 8
    else 9
  }

  lemma StepAligns(s: nat, i: nat, p: nat)
    requires Aligned(s, i, p)
    ensures Aligned(s, i + 1, p + StepFrom(s, i, p))
  {
  }

  /** The levels of bit `i`, four or five of its first half and four or five of its second. */
  lemma BitLevels(frame: seq<bool>, s: nat, i: nat)
    requires i < |frame|
    ensures var o := BitStart(s, i);
            var mid := o + if s == 2 * i then 5 else 4;
            && (forall m | o <= m < mid :: LevelOf(frame, s, m) == !frame[i])
            && (forall m | mid <= m < BitStart(s, i + 1) :: LevelOf(frame, s, m) == frame[i])
            && BitStart(s, i + 1) == o + if s == 2 * i || s == 2 * i + 1 then 9 else 8
  {
    forall m | BitStart(s, i) <= m < BitStart(s, i + 1)
      ensures LevelOf(frame, s, m) == if m < HalfStart(s, 2 * i + 1) then !frame[i] else frame[i]
    {
      HalfOfIff(s, m, 2 * i);
      HalfOfIff(s, m, 2 * i + 1);
    }
  }

  /** A frame is never recessive for 16 ticks before its end. */
  lemma FrameIsLively(frame: seq<bool>, s: nat, p: nat) returns (m: nat)
    requires frame != [] && p + 7 <= FrameEnd(frame, s)
    ensures p <= m < p + RX_IDLE_LINE_HIGH_TICKS && !LevelOf(frame, s, m)
  {
    hide LevelOf;
    var i := HalfOf(s, p) / 2;
    HalfOfIff(s, p, HalfOf(s, p));
    assert BitStart(s, i) <= p < BitStart(s, i + 1);
    if i + 1 < |frame| {
      BitLevels(frame, s, i + 1);
      m := if frame[i + 1] then BitStart(s, i + 1) else BitStart(s, i + 2) - 4;
    } else {
      assert i + 1 == |frame|;
      BitLevels(frame, s, i);
      m := if frame[i] then p else BitStart(s, i + 1) - 1;
    }
  }

  lemma BitDecodes(l: seq<bool>, bits: nat, frame: seq<bool>, s: nat, i: nat, p: nat)
    requires |l| == bits + 8 && Carries(l, frame, s) && i < |frame| && Aligned(s, i, p)
    ensures WeighAround(l, bits, p) == Weighed(if frame[i] then 25 else 24, StepFrom(s, i, p), Go)
  {
    hide PeekLevels, LevelOf, WeighAround, Carries;
    BitLevels(frame, s, i);
    EndBound(frame, s, i);
    CarriesLength(l, frame, s);
    PeeksFrame(l, bits, frame, s, p - 1);
    PeeksFrame(l, bits, frame, s, p);
    PeeksFrame(l, bits, frame, s, p + 1);
    var adv := StepFrom(s, i, p);
    assert PeekLevels(l, bits, p - 8 + adv) == Perfect(!frame[i]);
    FindsClean(l, bits, p, !frame[i], adv);
  }

  lemma CarriesLength(l: seq<bool>, frame: seq<bool>, s: nat)
    requires Carries(l, frame, s)
    ensures FrameEnd(frame, s) + 10 <= |l|
  {
  }

  lemma EndBound(frame: seq<bool>, s: nat, i: nat)
    requires i < |frame|
    ensures BitStart(s, i + 1) <= FrameEnd(frame, s)
  {
  }

  /** After the last bit the line is recessive. */
  lemma EndIsIdle(l: seq<bool>, bits: nat, frame: seq<bool>, s: nat, p: nat)
    requires |l| == bits + 8 && Carries(l, frame, s) && |frame| > 0 && Aligned(s, |frame|, p)
    ensures WeighAround(l, bits, p).stop == AtIdle
  {
    hide Weight;
    PeeksFrame(l, bits, frame, s, p + 1);
    var late := PeekLevels(l, bits, p + 1);
    forall t | 0 <= t < 8 ensures late[t] {
      assert HalfOf(s, p + 1 + t) >= 2 * |frame|;
    }
  }

  // ---- The frame ----

  /** The weight of clean bits: 24 for a zero and 25 for a one. */
  function CleanScore(frame: seq<bool>): (n: nat)
    ensures 24 * |frame| <= n <= 25 * |frame|
  {
    if frame == [] then 0 else (if frame[0] then 25 else 24) + CleanScore(frame[1..])
  }

  lemma {:induction false} DecodesFrom(l: seq<bool>, bits: nat, frame: seq<bool>, s: nat, maxBits: nat, i: nat, p: nat,
                                      score: nat)
    requires |l| == bits + 8 && Carries(l, frame, s) && FrameEnd(frame, s) < bits
    requires 2 <= |frame| <= maxBits + 1 && i <= |frame| && Aligned(s, i, p)
    requires score + CleanScore(frame[i..]) <= 0xFFFF
    ensures var r := DecodeFrom(l, bits, maxBits, 0, p, i, score, if i == 0 then [] else frame[1..i]);
            r.bitLen == |frame| - 1 && r.data == Packed(frame[1..]) && r.phase == 0
            && r.score == score + CleanScore(frame[i..])
    decreases |frame| - i
  {
    hide WeighAround, Carries, Packed;
    assert i < |frame| ==> frame[i..][1..] == frame[i + 1..];
    if i == |frame| {
      if p + 1 < bits {
        EndIsIdle(l, bits, frame, s, p);
      }
      assert frame[1..i] == frame[1..];
    } else {
      EndBound(frame, s, i);
      BitDecodes(l, bits, frame, s, i, p);
      StepAligns(s, i, p);
      if i > 0 {
        assert frame[1..i + 1] == frame[1..i] + [frame[i]];
      } else {
        assert frame[1..1] == [];
      }
      DecodesFrom(l, bits, frame, s, maxBits, i + 1, p + StepFrom(s, i, p), SatSum(score, if frame[i] then 25 else 24));
    }
  }

  /** A capture that carries a start bit and a frame decodes at phase 0 to that frame. */
  lemma FrameDecodes(w: SampleWindow, frame: seq<bool>, s: nat)
    requires WindowOk(w) && Carries(Levels(w), frame, s) && FrameEnd(frame, s) < w.bits
    requires 2 <= |frame| <= MAX_DECODED_BITS + 1
    ensures var r := Decode(w, MAX_DECODED_BITS, 0);
            r.bitLen == |frame| - 1 && r.data == Packed(frame[1..]) && r.phase == 0 && r.score == CleanScore(frame)
  {
    hide Levels, Carries, DecodeFrom;
    assert frame[0..] == frame;
    DecodesFrom(Levels(w), w.bits, frame, s, MAX_DECODED_BITS, 0, 1, 0);
  }

  // ---- Scores ----

  lemma WeightIsBounded(p: seq<bool>)
    requires |p| == 8
    ensures Weight(p) <= 25
  {
  }

  lemma {:induction false} ScoreFrom(l: seq<bool>, bits: nat, maxBits: nat, phase: int, bitpos: nat, count: nat, score: nat,
                                     got: seq<bool>)
    requires |l| == bits + 8 && score <= 25 * count
    ensures var r := DecodeFrom(l, bits, maxBits, phase, bitpos, count, score, got); r.score <= 25 * (r.bitLen + 1)
    decreases bits - bitpos
  {
    hide WeighAround, Packed;
    if bitpos + 1 < bits && count <= maxBits {
      var w := WeighAround(l, bits, bitpos + phase);
      Advances(l, bits, bitpos + phase);
      AroundIsBounded(l, bits, bitpos + phase);
      if w.stop.Go? {
        ScoreFrom(l, bits, maxBits, phase, bitpos + w.advance, count + 1, SatSum(score, w.weight),
                  if count == 0 then got else got + [w.weight % 2 == 1]);
      }
    }
  }

  lemma AroundIsBounded(l: seq<bool>, bits: nat, shifted: int)
    requires |l| == bits + 8
    ensures WeighAround(l, bits, shifted).weight <= 25
  {
    hide Weight, PeekLevels, StopOf;
    WeightIsBounded(PeekLevels(l, bits, shifted - 1));
    WeightIsBounded(PeekLevels(l, bits, shifted));
    WeightIsBounded(PeekLevels(l, bits, shifted + 1));
  }

  /** No decode of any capture scores higher than clean ones would, start bit included. */
  lemma CleanScoresHighest(w: SampleWindow, phase: int)
    requires WindowOk(w)
    ensures var r := Decode(w, MAX_DECODED_BITS, phase); r.score <= 25 * (r.bitLen + 1)
  {
    hide DecodeFrom, Levels;
    ScoreFrom(Levels(w), w.bits, MAX_DECODED_BITS, phase, 1, 0, 0, []);
  }
}
