/** The search over sampling phases, one phase per step (manchester.rs). */
module PhaseSearch {
  import opened Wrappers
  import opened Manchester

  /** A set of bit lengths; the source keeps it as a 32-bit mask, so longer ones fall out. */
  function BitLengths(lengths: seq<nat>): set<nat> {
    set n | n in lengths && n < 32
  }

  const BACKWARD_FRAME_BIT_LENGTHS := BitLengths([8])
  const SNIFFED_BIT_LENGTHS := BitLengths([8, 16, 24])

  /** Half of the scanned phases lie before the centre and half behind it; the centre is not among them. */
  function ScanPhase(index: nat): int {
    var offset := index % 4 - 2;
    if offset >= 0 then offset + 1 else offset
  }

  function Abs(x: int): nat {
    if x < 0 then -x else x
  }

  /** A preferred length first, then the score, then the distance from the centre. */
  predicate Better(a: PhaseDecode, b: PhaseDecode, preferred: set<nat>) {
    if (a.bitLen in preferred) != (b.bitLen in preferred) then a.bitLen in preferred
    else if a.score != b.score then a.score > b.score
    else if Abs(a.phase) != Abs(b.phase) then Abs(a.phase) < Abs(b.phase)
    else a.phase == 0 && b.phase != 0
  }

  function Accepted(found: Option<PhaseDecode>): Option<PhaseDecode> {
    if found.Some? && found.value.bitLen >= MIN_DECODED_BITS then found else None
  }

  datatype Outcome = Searching | Done(found: Option<PhaseDecode>)

  datatype Search = Search(preferred: set<nat>, step: nat, best: Option<PhaseDecode>)

  function NewSearch(preferred: set<nat>): Search {
    Search(preferred, 0, None)
  }

  function At(w: SampleWindow, phase: int): PhaseDecode
    requires WindowOk(w)
  {
    Decode(w, MAX_DECODED_BITS, phase)
  }

  function Pick(best: Option<PhaseDecode>, d: PhaseDecode, preferred: set<nat>): Option<PhaseDecode> {
    if d.bitLen != 0 && (best.None? || Better(d, best.value, preferred)) then Some(d) else best
  }

  function Verdict(s: Search): Outcome {
    if s.step > PHASE_SCAN_COUNT then Done(Accepted(s.best)) else Searching
  }

  /** One step decodes at most one phase. */
  function SearchStep(s: Search, w: SampleWindow): (Search, Outcome)
    requires WindowOk(w)
  {
    if s.step == 0 then
      (s.(step := 1), if At(w, 0).bitLen in s.preferred then Done(Accepted(Some(At(w, 0)))) else Searching)
    else if s.step > PHASE_SCAN_COUNT then (s, Done(Accepted(s.best)))
    else
      var t := s.(step := s.step + 1, best := Pick(s.best, At(w, ScanPhase(s.step - 1)), s.preferred));
      (t, Verdict(t))
  }

  /** The search after `n` steps. */
  function SearchAfter(preferred: set<nat>, w: SampleWindow, n: nat): (Search, Outcome)
    requires WindowOk(w)
  {
    if n == 0 then (NewSearch(preferred), Searching) else SearchStep(SearchAfter(preferred, w, n - 1).0, w)
  }

  // ---- What the search is to find ----

  /** A phase the search looks at, with something decoded there. */
  predicate Scanned(w: SampleWindow, d: PhaseDecode)
    requires WindowOk(w)
  {
    d.bitLen != 0 && (d == At(w, -2) || d == At(w, -1) || d == At(w, 1) || d == At(w, 2))
  }

  /** The centre when its length is preferred; otherwise a best of the phases around it. */
  ghost predicate IsFound(w: SampleWindow, preferred: set<nat>, found: Option<PhaseDecode>)
    requires WindowOk(w)
  {
    if At(w, 0).bitLen in preferred then found == AtLeastThreeBits(Some(At(w, 0)))
    else exists b: Option<PhaseDecode> :: IsBest(w, preferred, b) && found == AtLeastThreeBits(b)
  }

  function AtLeastThreeBits(d: Option<PhaseDecode>): Option<PhaseDecode> {
    if d.Some? && d.value.bitLen >= 3 then d else None
  }

  /** A preferred length if the other has one, then no lower score, then no farther from the centre, then no later. */
  predicate Beats(d: PhaseDecode, c: PhaseDecode, preferred: set<nat>) {
    && (c.bitLen in preferred ==> d.bitLen in preferred)
    && ((c.bitLen in preferred <==> d.bitLen in preferred) ==> c.score <= d.score)
    && ((c.bitLen in preferred <==> d.bitLen in preferred) && c.score == d.score ==> Abs(d.phase) <= Abs(c.phase))
    && ((c.bitLen in preferred <==> d.bitLen in preferred) && c.score == d.score && Abs(d.phase) == Abs(c.phase)
        ==> d.phase <= c.phase)
  }

  ghost predicate IsBest(w: SampleWindow, preferred: set<nat>, b: Option<PhaseDecode>)
    requires WindowOk(w)
  {
    match b
    case Some(d) => Scanned(w, d) && forall c | Scanned(w, c) :: Beats(d, c, preferred)
    case None => forall c | Scanned(w, c) :: false
  }

  /** The comparison is a strict order, and what it decides between an earlier and a later phase is what `Beats` says. */
  lemma BetterIsAnOrder(a: PhaseDecode, b: PhaseDecode, c: PhaseDecode, preferred: set<nat>)
    ensures !(Better(a, b, preferred) && Better(b, a, preferred))
    ensures Better(a, b, preferred) && Better(b, c, preferred) ==> Better(a, c, preferred)
    ensures Better(a, b, preferred) && !Better(c, b, preferred) ==> !Better(c, a, preferred)
    ensures b.phase < a.phase != 0 ==> if Better(a, b, preferred) then Beats(a, b, preferred) else Beats(b, a, preferred)
  {
  }

  lemma BeatsIsTransitive(a: PhaseDecode, b: PhaseDecode, c: PhaseDecode, preferred: set<nat>)
    requires Beats(a, b, preferred) && Beats(b, c, preferred)
    ensures Beats(a, c, preferred)
  {
  }

  /** What was kept so far comes from an earlier phase than the one looked at. */
  predicate Earlier(best: Option<PhaseDecode>, d: PhaseDecode) {
    d.phase != 0 && (best.Some? ==> best.value.phase < d.phase)
  }

  /** Keeping the better of two keeps the best of all. */
  lemma PickKeeps(best: Option<PhaseDecode>, d: PhaseDecode, preferred: set<nat>, c: PhaseDecode)
    requires c.bitLen != 0 && Earlier(best, d)
    requires c == d || (best.Some? && Beats(best.value, c, preferred))
    ensures var b := Pick(best, d, preferred); b.Some? && Beats(b.value, c, preferred)
  {
    hide Better, Beats;
    BeatsItself(d, preferred);
    if best.Some? {
      BetterIsAnOrder(d, best.value, d, preferred);
      if Better(d, best.value, preferred) && c != d {
        BeatsIsTransitive(d, best.value, c, preferred);
      }
    }
  }

  lemma BeatsItself(d: PhaseDecode, preferred: set<nat>)
    ensures Beats(d, d, preferred)
  {
  }

  lemma {:induction false} DecodeFromPhase(l: seq<bool>, bits: nat, maxBits: nat, phase: int, bitpos: nat, count: nat,
                                           score: nat, got: seq<bool>)
    requires |l| == bits + 8
    ensures DecodeFrom(l, bits, maxBits, phase, bitpos, count, score, got).phase == phase
    decreases bits - bitpos
  {
    hide WeighAround, Packed;
    if bitpos + 1 < bits && count <= maxBits {
      var w := WeighAround(l, bits, bitpos + phase);
      Advances(l, bits, bitpos + phase);
      if w.stop.Go? {
        DecodeFromPhase(l, bits, maxBits, phase, bitpos + w.advance, count + 1, SatSum(score, w.weight),
                        if count == 0 then got else got + [w.weight % 2 == 1]);
      }
    }
  }

  function BestOf(w: SampleWindow, preferred: set<nat>): Option<PhaseDecode>
    requires WindowOk(w)
  {
    Pick(Pick(Pick(Pick(None, At(w, -2), preferred), At(w, -1), preferred), At(w, 1), preferred), At(w, 2), preferred)
  }

  lemma AtPhase(w: SampleWindow, phase: int)
    requires WindowOk(w)
    ensures At(w, phase).phase == phase
  {
    hide DecodeFrom, Levels;
    DecodeFromPhase(Levels(w), w.bits, MAX_DECODED_BITS, phase, 1, 0, 0, []);
  }

  lemma BestOfIsBest(w: SampleWindow, preferred: set<nat>)
    requires WindowOk(w)
    ensures IsBest(w, preferred, BestOf(w, preferred))
  {
    hide Better, Beats, At;
    AtPhase(w, -2);
    AtPhase(w, -1);
    AtPhase(w, 1);
    AtPhase(w, 2);
    var b1 := Pick(None, At(w, -2), preferred);
    var b2 := Pick(b1, At(w, -1), preferred);
    var b3 := Pick(b2, At(w, 1), preferred);
    forall c | Scanned(w, c)
      ensures BestOf(w, preferred).Some? && Beats(BestOf(w, preferred).value, c, preferred)
    {
      if c == At(w, -2) { PickKeeps(None, At(w, -2), preferred, c); }
      if c == At(w, -2) || c == At(w, -1) { PickKeeps(b1, At(w, -1), preferred, c); }
      if c != At(w, 2) || c == At(w, 1) { PickKeeps(b2, At(w, 1), preferred, c); }
      PickKeeps(b3, At(w, 2), preferred, c);
    }
  }

  function Found(w: SampleWindow, preferred: set<nat>): (found: Option<PhaseDecode>)
    requires WindowOk(w)
  {
    if At(w, 0).bitLen in preferred then Accepted(Some(At(w, 0))) else Accepted(BestOf(w, preferred))
  }

  lemma FoundIsBest(w: SampleWindow, preferred: set<nat>)
    requires WindowOk(w)
    ensures IsFound(w, preferred, Found(w, preferred))
    ensures forall found | IsFound(w, preferred, found) :: found == Found(w, preferred)
  {
    hide Better, Beats, At;
    BestOfIsBest(w, preferred);
    forall b: Option<PhaseDecode> | IsBest(w, preferred, b) ensures b == BestOf(w, preferred) {
      BestIsUnique(w, preferred, b, BestOf(w, preferred));
    }
  }

  lemma BestIsUnique(w: SampleWindow, preferred: set<nat>, a: Option<PhaseDecode>, b: Option<PhaseDecode>)
    requires WindowOk(w) && IsBest(w, preferred, a) && IsBest(w, preferred, b)
    ensures a == b
  {
    hide At;
    AtPhase(w, -2);
    AtPhase(w, -1);
    AtPhase(w, 1);
    AtPhase(w, 2);
  }

  /** The steps the search takes. */
  function StepsNeeded(w: SampleWindow, preferred: set<nat>): nat
    requires WindowOk(w)
  {
    if At(w, 0).bitLen in preferred then 1 else PHASE_SCAN_COUNT + 1
  }

  /** One phase per step ends, in one step or five, with what a run to completion finds, and not before. */
  lemma StepwiseIsComplete(w: SampleWindow, preferred: set<nat>, n: nat)
    requires WindowOk(w) && 1 <= n <= StepsNeeded(w, preferred)
    ensures SearchAfter(preferred, w, n).1
         == if n == StepsNeeded(w, preferred) then Done(Found(w, preferred)) else Searching
  {
    hide Better, At, Pick;
    assert ScanPhase(0) == -2 && ScanPhase(1) == -1 && ScanPhase(2) == 1 && ScanPhase(3) == 2;
    assert SearchAfter(preferred, w, 0).0 == NewSearch(preferred);
    var s1 := SearchAfter(preferred, w, 1).0;
    assert s1 == Search(preferred, 1, None);
    if n > 1 {
      var s2 := SearchAfter(preferred, w, 2).0;
      assert s2 == Search(preferred, 2, Pick(None, At(w, -2), preferred));
      var s3 := SearchAfter(preferred, w, 3).0;
      assert s3 == Search(preferred, 3, Pick(s2.best, At(w, -1), preferred));
      var s4 := SearchAfter(preferred, w, 4).0;
      assert s4 == Search(preferred, 4, Pick(s3.best, At(w, 1), preferred));
      assert SearchAfter(preferred, w, 5).0 == Search(preferred, 5, Pick(s4.best, At(w, 2), preferred));
    }
  }

  lemma {:induction false} StepCounts(w: SampleWindow, preferred: set<nat>, n: nat)
    requires WindowOk(w) && n <= PHASE_SCAN_COUNT + 1
    ensures SearchAfter(preferred, w, n).0.step == n
    decreases n
  {
    hide At, Pick;
    if n > 0 {
      StepCounts(w, preferred, n - 1);
    }
  }

  /** The next step of a search that has made `n`. */
  lemma SearchAdvances(w: SampleWindow, preferred: set<nat>, n: nat)
    requires WindowOk(w) && n < StepsNeeded(w, preferred)
    ensures SearchStep(SearchAfter(preferred, w, n).0, w) == SearchAfter(preferred, w, n + 1)
    ensures SearchAfter(preferred, w, n + 1).0.step == n + 1
    ensures SearchAfter(preferred, w, n + 1).1
         == if n + 1 == StepsNeeded(w, preferred) then Done(Found(w, preferred)) else Searching
  {
    hide SearchStep, Found, At;
    StepwiseIsComplete(w, preferred, n + 1);
    StepCounts(w, preferred, n + 1);
  }

  // ---- The source's object ----

  class BestPhaseSearch {
    const preferred: set<nat>
    var step: nat
    var best: Option<PhaseDecode>

    ghost function View(): Search
      reads this
    {
      Search(preferred, step, best)
    }

    constructor (preferred: set<nat>)
      ensures View() == NewSearch(preferred)
    {
      this.preferred := preferred;
      step, best := 0, None;
    }

    constructor Resume(s: Search)
      ensures View() == s
    {
      preferred, step, best := s.preferred, s.step, s.best;
    }

    method Step(w: SampleWindow) returns (outcome: Outcome)
      requires WindowOk(w)
      modifies this
      ensures (View(), outcome) == SearchStep(old(View()), w)
    {
      hide Decode, Better;
      if step == 0 {
        step := 1;
        var first := DecodePhase(w, MAX_DECODED_BITS, 0);
        return if first.bitLen in preferred then Done(Accepted(Some(first))) else Searching;
      }
      if step > PHASE_SCAN_COUNT {
        return Done(Accepted(best));
      }
      var candidate := DecodePhase(w, MAX_DECODED_BITS, ScanPhase(step - 1));
      step := step + 1;
      if candidate.bitLen != 0 {
        var replace := best.None? || Better(candidate, best.value, preferred);
        if replace {
          best := Some(candidate);
        }
      }
      return if step > PHASE_SCAN_COUNT then Done(Accepted(best)) else Searching;
    }

    method Run(w: SampleWindow) returns (found: Option<PhaseDecode>)
      requires WindowOk(w) && View() == NewSearch(preferred)
      modifies this
      ensures found == Found(w, preferred) && IsFound(w, preferred, found)
    {
      hide Found, IsFound, SearchStep, At;
      FoundIsBest(w, preferred);
      ghost var n := 0;
      while true
        invariant n < StepsNeeded(w, preferred) && View() == SearchAfter(preferred, w, n).0
        decreases StepsNeeded(w, preferred) - n
      {
        n := n + 1;
        StepwiseIsComplete(w, preferred, n);
        var outcome := Step(w);
        if outcome.Done? {
          return outcome.found;
        }
      }
    }
  }
}
