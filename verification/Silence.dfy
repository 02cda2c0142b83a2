/** The silence before a frame (fsm.rs): what the receiver counts of an arbitrary line, and what it publishes with a capture. */
module Silence {
  import opened Fsm
  import opened Reception

  /**
   The recessive ticks since the frame before, whose sixteen closing ones count, or since the start,
   when there were `start`; a single dominant tick is passed over. While a frame is heard, those before it.
   */
  function SilenceOf(start: nat, line: seq<bool>): nat {
    if line == [] then start
    else
      var before := SilenceOf(start, line[..|line| - 1]);
      match ListenTo(line)
      case Heard(_) => 16
      case Hearing(_) => before
      case Quiet(_) => before + if line[|line| - 1] then 1 else 0
  }

  /** The counters are as wide as in the source. */
  predicate Counts(p: Phy, e: Ear, silence: nat) {
    match e
    case Hearing(l) => p.rx.preIdle == Min(silence, 0xFF) && p.highRun == TrailingHigh(l)
    case Quiet(_) => p.idleCount == Min(silence, 0xFFFF)
    case Heard(_) => p.idleCount == Min(silence, 0xFFFF)
  }

  /** Two replayed ticks do not touch what was counted. */
  lemma StartCounts(p: Phy)
    requires WellFormed(p)
    ensures var q := ReplayLow(EnterRx(p), 2);
            q.rx.preIdle == (if p.idleCount > 0xFF then 0xFF else p.idleCount) && q.highRun == p.highRun
  {
    hide Record;
    var q := EnterRx(p);
    RecordCounts(q.rx, false);
    var q1 := TickRx(q, false);
    RecordCounts(q1.rx, false);
    var q2 := TickRx(q1, false);
    assert ReplayLow(q, 2) == ReplayLow(q1, 1) == ReplayLow(q2, 0) == q2;
  }

  lemma RecordCounts(rx: Receiver, high: bool)
    requires |rx.data| == SAMPLE_BUF_LEN
    ensures Record(rx, high).preIdle == rx.preIdle
  {
  }

  lemma HearingCounts(p: Phy, l: seq<bool>, high: bool, silence: nat)
    requires Simulates(Hearing(l), p) && Counts(p, Hearing(l), silence)
    ensures var e, q := Listen(Hearing(l), high), Tick(p, high);
            if e.Heard? then Counts(q, e, 16) && q.rx.last.preIdle == Min(silence, 0xFF) else Counts(q, e, silence)
  {
    hide Record, Records, TrailingHigh;
    Grown(l, high);
    RecordStep(p.rx, l, high);
    RecordCounts(p.rx, high);
  }

  lemma QuietCounts(p: Phy, e: Ear, high: bool, silence: nat)
    requires Simulates(e, p) && !e.Hearing? && Counts(p, e, silence)
    ensures Counts(Tick(p, high), Listen(e, high), if high then silence + 1 else silence)
  {
    hide Publishes, Receives, ReplayLow, TrailingHigh;
    var c := CountRuns(p, high);
    if !high && p.debounce == 1 {
      StartCounts(c.(debounce := 2));
      LowEnds();
    }
  }

  lemma LowEnds()
    ensures TrailingHigh([false, false]) == 0
  {
    assert !([false, false])[1];
  }

  /** For every line the idle count is the silence so far, and a capture is published with the silence before it. */
  lemma {:induction false} SilenceIsCounted(p: Phy, line: seq<bool>)
    requires WellFormed(p) && p.state.Idle? && p.debounce == 0 && p.idleCount <= 0xFFFF
    ensures Counts(Ticks(p, line), ListenTo(line), SilenceOf(p.idleCount, line))
    ensures ListenTo(line).Heard? ==>
              Ticks(p, line).rx.last.preIdle == Min(SilenceOf(p.idleCount, line[..|line| - 1]), 0xFF)
    decreases |line|
  {
    hide Tick, Listen, Counts, Simulates;
    if line == [] {
      NothingCounted(p);
    } else {
      var rest, high := line[..|line| - 1], line[|line| - 1];
      SilenceIsCounted(p, rest);
      ReceiverRefines(p, rest);
      var e, silence := ListenTo(rest), SilenceOf(p.idleCount, rest);
      HearsOrNotices(e, high);
      if e.Hearing? {
        HearingCounts(Ticks(p, rest), e.levels, high, silence);
      } else {
        QuietCounts(Ticks(p, rest), e, high, silence);
      }
    }
  }

  lemma NothingCounted(p: Phy)
    requires p.idleCount <= 0xFFFF
    ensures Counts(p, ListenTo([]), p.idleCount)
  {
  }

  lemma HearsOrNotices(e: Ear, high: bool)
    ensures e.Hearing? ==> Listen(e, high).Hearing? || Listen(e, high).Heard?
    ensures !e.Hearing? ==> Listen(e, high).Quiet? || Listen(e, high).Hearing?
    ensures !e.Hearing? && Listen(e, high).Hearing? ==> !high
  {
    hide TrailingHigh;
  }
}
