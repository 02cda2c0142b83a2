/**
 A run from power-up in which an answer is armed in the last tick of its slot: the line is held
 low over the slot and let go just before it ends (isr.rs, backward_window.rs).
 */
module IsrLatest {
  import opened Wrappers
  import opened HalfBits
  import opened Fsm
  import opened Reception
  import opened Manchester
  import opened PhaseSearch
  import opened RxDecode
  import opened FrameDecode
  import opened RoundTrip
  import opened PhySteps
  import opened Isr
  import opened IsrBase
  import opened IsrSniffer
  import opened IsrAnswers
  import opened IsrTiming

  /** Nothing to send, nothing asked for, nothing under way. */
  predicate Bare(c: Core) {
    && Rest(c) && c.demand.cell.None? && c.demand.queue == [] && c.demand.pending.None?
    && c.control.requested == 0 && !c.phy.busy && c.session.window == 0
  }

  lemma BareArms(c: Core)
    requires Bare(c) && Armable(c) && (c.staged.None? || TryArm(c) == (c, HeldBack))
    ensures ArmPending(c) == c
  {
    hide TryArm, HeldOk, Sound;
    assert c.staged.None? ==> TryArm(c) == (c, NotStaged) by {
      NothingStaged(c);
    }
    assert TakeUp(c.demand) == c.demand;
    assert c.(demand := c.demand) == c;
  }

  lemma NothingStaged(c: Core)
    requires Armable(c)
    ensures c.staged.None? ==> TryArm(c) == (c, NotStaged)
  {
  }

  /** The clock after a tick that received nothing whole. */
  function Later(k: Clock, p: Phy, q: Phy, high: bool): Clock {
    k.(now := k.now + 1, wire := k.wire + [Instant(high, q.out)],
       rxStart := if !p.rx.state.Receiving? && q.rx.state.Receiving? then k.now + 1 else k.rxStart)
  }

  /** A tick in which nothing is armed, and what it leaves to the held capture and the drain. */
  lemma BareSample(c: Core, high: bool, answer: Option<u8>) returns (s: Core)
    requires Bare(c) && Armable(c) && (c.staged.None? || TryArm(c) == (c, HeldBack))
    ensures Ready(c) && HeldOk(s.sniffer) && IsrTick(c, high, answer) == DrainCompletedRx(StepHeld(s, answer))
    ensures s == c.(phy := Tick(c.phy, high), clock := Later(c.clock, c.phy, Tick(c.phy, high), high))
  {
    hide ArmPending, Tick, StepHeld, DrainCompletedRx, TryArm, Sound, HeldOk;
    RestIsReady(c);
    BareArms(c);
    BareHolds(c);
    s := Sample(c, high, c.phy.rx.state);
    NothingEnds(c, high);
  }

  lemma BareHolds(c: Core)
    requires Bare(c)
    ensures HeldOk(c.sniffer)
  {
  }

  lemma NothingEnds(c: Core, high: bool)
    requires Bare(c)
    ensures !Tick(c.phy, high).busy
  {
    hide Tick;
    ListeningTick(c.phy, high);
  }

  lemma BareTick(c: Core, high: bool, answer: Option<u8>)
    requires Bare(c) && Armable(c) && (c.staged.None? || TryArm(c) == (c, HeldBack))
    requires c.sniffer.held.None? && !Tick(c.phy, high).rx.state.Completed?
    ensures Ready(c)
    ensures IsrTick(c, high, answer) == c.(phy := Tick(c.phy, high), clock := Later(c.clock, c.phy, Tick(c.phy, high), high))
    ensures Bare(IsrTick(c, high, answer))
  {
    hide Tick, TryArm, IsrTick, Rest;
    var s := BareSample(c, high, answer);
    NothingToDrain(s);
    StepRests(c, TickWith(high, answer));
    NothingEnds(c, high);
  }

  // ---- Runs of levels ----

  function LineRun(line: seq<bool>): (r: seq<Action>)
    ensures |r| == |line|
  {
    if line == [] then [] else [TickWith(line[0], None)] + LineRun(line[1..])
  }

  lemma {:induction false} ExecSplits(c: Core, run: seq<Action>, later: seq<Action>)
    requires Rest(c)
    ensures Exec(c, run + later) == Exec(Exec(c, run), later)
    decreases |run|
  {
    hide Step, Rest;
    if run == [] {
      assert run + later == later;
    } else {
      StepRests(c, run[0]);
      assert (run + later)[1..] == run[1..] + later;
      ExecSplits(Step(c, run[0]), run[1..], later);
    }
  }

  lemma ExecOne(c: Core, high: bool, answer: Option<u8>)
    requires Rest(c)
    ensures Ready(c) && Exec(c, [TickWith(high, answer)]) == IsrTick(c, high, answer)
  {
    hide IsrTick, Rest;
    StepRests(c, TickWith(high, answer));
    assert [TickWith(high, answer)][1..] == [];
  }

  lemma RunSteps(c: Core, line: seq<bool>)
    requires Rest(c) && line != []
    ensures Ready(c) && Rest(IsrTick(c, line[0], None))
    ensures Exec(c, LineRun(line)) == Exec(IsrTick(c, line[0], None), LineRun(line[1..]))
  {
    hide IsrTick, Rest;
    StepRests(c, TickWith(line[0], None));
    assert LineRun(line)[1..] == LineRun(line[1..]);
  }

  // ---- The query ----

  /** The core has heard `line`, and no frame has completed yet. */
  predicate Listened(c: Core, line: seq<bool>) {
    && Bare(c) && c.staged.None? && c.sniffer.held.None? && c.phy == Ticks(NewPhy(), line)
    && c.tally.arms == []
  }

  /** Not completing is not hearing. */
  lemma Unheard(c: Core, line: seq<bool>, high: bool)
    requires Listened(c, line) && !ListenTo(line + [high]).Heard?
    ensures !Tick(c.phy, high).rx.state.Completed?
  {
    hide Tick, Ticks, ListenTo, TrailingHigh, Records;
    ReceiverRefines(NewPhy(), line);
    ListenSnoc(line, high);
    ListeningTick(c.phy, high);
    var e := ListenTo(line);
    if e.Hearing? {
      Grown(e.levels, high);
    }
  }

  lemma TicksSnoc(line: seq<bool>, high: bool)
    ensures Ticks(NewPhy(), line + [high]) == Tick(Ticks(NewPhy(), line), high)
  {
    hide Tick;
    assert (line + [high])[..|line|] == line;
  }

  lemma {:induction false} ListenRun(c: Core, heard: seq<bool>, line: seq<bool>)
    requires Listened(c, heard)
    requires forall k | 0 <= k <= |line| :: !ListenTo(heard + line[..k]).Heard?
    ensures Listened(Exec(c, LineRun(line)), heard + line)
    decreases |line|
  {
    hide IsrTick, Tick, Ticks, ListenTo, Rest;
    if line == [] {
      assert heard + line == heard;
    } else {
      var high := line[0];
      assert heard + line[..1] == heard + [high];
      RestIsReady(c);
      Unheard(c, heard, high);
      BareTick(c, high, None);
      TicksSnoc(heard, high);
      RunSteps(c, line);
      var next := IsrTick(c, high, None);
      forall k | 0 <= k <= |line[1..]| ensures !ListenTo(heard + [high] + line[1..][..k]).Heard? {
        assert heard + [high] + line[1..][..k] == heard + line[..k + 1];
      }
      ListenRun(next, heard + [high], line[1..]);
      assert heard + [high] + line[1..] == heard + line;
    }
  }

  const QUERY_BITS := 24

  /** The levels of a 24-bit query on the line, up to its completed capture. */
  function QueryLine(): (l: seq<bool>)
    ensures |l| == ArrivalTicks(0, QUERY_BITS)
  {
    Line(EncodedFrame(0, QUERY_BITS), ArrivalTicks(0, QUERY_BITS))
  }

  lemma QueryEncodes()
    ensures Encodes(EncodedFrame(0, QUERY_BITS), 0, QUERY_BITS)
  {
    StagedFrameIsEncoded(0, QUERY_BITS);
  }

  /** The frame is heard with its last level and not before. */
  lemma HeardAtTheEnd(k: nat)
    requires k < |QueryLine()|
    ensures !ListenTo(QueryLine()[..k]).Heard?
  {
    hide Closes, Encodes, LevelOf, ListenTo, HeardLevels, EncodedFrame, ArrivalTicks, OutAt, Line;
    var f := EncodedFrame(0, QUERY_BITS);
    QueryEncodes();
    EncodedIsSendable(f, 0, QUERY_BITS);
    LineSplits(f, 0, QUERY_BITS);
    HeardCloses(0, QUERY_BITS);
    LeadIsQuiet(f);
    var lead, l := Line(f, 4), HeardLevels(0, QUERY_BITS);
    if k <= 4 {
      assert QueryLine()[..k] == lead[..k];
      LeadNotHeard(f, k);
    } else {
      assert QueryLine()[..k] == lead + l[..k - 4];
      EndIsNew(lead, l, k - 4);
    }
  }

  lemma LeadNotHeard(f: Frame, k: nat)
    requires Sendable(f) && k <= 4
    ensures !ListenTo(Line(f, 4)[..k]).Heard?
  {
    AllHigh(Line(f, 4)[..k]);
  }

  lemma {:induction false} AllHigh(l: seq<bool>)
    requires forall i | 0 <= i < |l| :: l[i]
    ensures ListenTo(l) == Quiet(0)
    decreases |l|
  {
    if l != [] {
      AllHigh(l[..|l| - 1]);
    }
  }

  lemma EndIsNew(lead: seq<bool>, l: seq<bool>, j: nat)
    requires ListenTo(lead) == Quiet(0) && Closes(l) && 1 <= j < |l|
    ensures !ListenTo(lead + l[..j]).Heard?
  {
    hide ListenTo, TrailingHigh;
    if j == 1 {
      assert lead + l[..1] == lead + [l[0]];
      ListenSnoc(lead, l[0]);
    } else {
      ListensUpTo(lead, l, j);
    }
  }

  /** The line delivers the query to a transceiver at power-up. */
  lemma QueryDelivers()
    ensures var p := Ticks(NewPhy(), QueryLine());
            && Delivers(p, ValueBits(0, QUERY_BITS))
            && IsForward24Length(p.rx.last.sampleCount) && p.state.Idle? && p.debounce == 0
  {
    hide Encodes, Decode, Ticks, Packed, Publishes, Carries, Levels, LevelOf, ValueBit, LoadTx, Listen, EncodedFrame, HeardLevels;
    var f, p := EncodedFrame(0, QUERY_BITS), Ticks(NewPhy(), QueryLine());
    QueryEncodes();
    ReceiverRefines(NewPhy(), QueryLine());
    LineIsHeard(f, 0, QUERY_BITS);
    CaptureCarries(p.rx.last, 0, QUERY_BITS);
    FrameDecodes(WindowOf(p.rx.last.samples, p.rx.last.sampleCount), FrameBits(0, QUERY_BITS), NoStretch(QUERY_BITS));
    assert FrameBits(0, QUERY_BITS)[1..] == ValueBits(0, QUERY_BITS);
  }

  /** The query's capture completes: it is held for decoding, sixteen ticks after its edge. */
  lemma CaptureTick(c: Core, high: bool)
    requires Bare(c) && c.staged.None? && c.sniffer.held.None? && RunsAgree(c.phy)
    requires Tick(c.phy, high).rx.state.Completed? && IsForward24Length(Tick(c.phy, high).rx.last.sampleCount)
    ensures Ready(c)
    ensures var q, r := Tick(c.phy, high), IsrTick(c, high, None);
            && Bare(r) && r.staged.None? && r.tally == c.tally && r.phy == TakeCompleted(q).0
            && r.clock.now - r.clock.edge == RX_IDLE_LINE_HIGH_TICKS
            && r.sniffer.held.Some? && var h := r.sniffer.held.value;
               h.ev.capture == q.rx.last && h.ev.epoch == r.clock.busEpoch && h.search == NewSearch(SNIFFED_BIT_LENGTHS)
  {
    hide Tick, TryArm, IsrTick, Rest, NewSearch;
    RestIsReady(c);
    var s := BareSample(c, high, None);
    StepRests(c, TickWith(high, None));
    AtRestFacts(c);
    CompletesSixteenAfter(c.phy, high);
    NothingEnds(c, high);
    BareDrains(s);
  }

  lemma BareDrains(s: Core)
    requires s.demand.cell.None? && s.demand.queue == [] && s.demand.pending.None? && s.sniffer.held.None?
    requires s.session.window == 0 && s.phy.rx.state.Completed? && IsForward24Length(s.phy.rx.last.sampleCount)
    ensures var r := DrainCompletedRx(s);
            && r.demand == s.demand && r.control == s.control && r.session.window == 0 && r.staged == s.staged
            && r.tally == s.tally && r.phy == TakeCompleted(s.phy).0 && r.clock.now == s.clock.now
            && r.clock.edge == s.clock.now - s.phy.idleCount
            && r.sniffer.held.Some? && var h := r.sniffer.held.value;
               h.ev.capture == s.phy.rx.last && h.ev.epoch == r.clock.busEpoch && h.search == NewSearch(SNIFFED_BIT_LENGTHS)
  {
    hide Tags;
  }

  /** An answer is staged for a frame that ended `since` ticks ago. */
  predicate Answers(c: Core, since: int) {
    && Bare(c) && c.sniffer.held.None? && c.staged.Some? && c.staged.value.epoch == c.clock.busEpoch
    && c.clock.now - c.clock.edge == since
  }

  /** A held capture that decodes at its centre to 24 bits is answered in one tick. */
  lemma StageTick(c: Core, answer: u8)
    requires Bare(c) && c.staged.None? && c.sniffer.held.Some? && SniffInv(c) && c.phy.state.Idle?
    requires var h := c.sniffer.held.value;
             && h.search == NewSearch(SNIFFED_BIT_LENGTHS) && h.ev.epoch == c.clock.busEpoch
             && |h.ev.capture.samples| == SAMPLE_BUF_LEN && At(EventWindow(h.ev), 0).bitLen == QUERY_BITS
    ensures Ready(c)
    ensures var r := IsrTick(c, true, Some(answer));
            && Answers(r, c.clock.now + 1 - c.clock.edge)
            && r.tally == c.tally && r.phy == Tick(c.phy, true)
  {
    hide Tick, TryArm, IsrTick, Rest, At, EncodedFrame, InSequence;
    RestIsReady(c);
    var s := BareSample(c, true, Some(answer));
    StepRests(c, TickWith(true, Some(answer)));
    NothingEnds(c, true);
    AtRestFacts(c);
    ListeningTick(c.phy, true);
    DoneAtOnce(c.sniffer.held.value);
    NothingToDrain(StepHeld(s, Some(answer)));
  }

  lemma DoneAtOnce(h: Held)
    requires h.search == NewSearch(SNIFFED_BIT_LENGTHS)
    requires |h.ev.capture.samples| == SAMPLE_BUF_LEN && At(EventWindow(h.ev), 0).bitLen == QUERY_BITS
    ensures var outcome := SearchStep(h.search, EventWindow(h.ev)).1;
            outcome.Done? && outcome.found.Some? && outcome.found.value.bitLen == FORWARD24_BITS
  {
    hide At;
    assert 24 in [8, 16, 24];
  }

  // ---- The slot ----

  /** Before its slot, and in it while the line is held low, the answer waits. */
  lemma Waits(c: Core, since: nat)
    requires Answers(c, since) && Armable(c)
    requires since < ANSWER_ARM_TARGET_IDLE_TICKS || (since <= ANSWER_ARM_MAX_IDLE_TICKS && c.phy.lowRun >= LINE_HELD_TICKS)
    ensures TryArm(c) == (c, HeldBack)
  {
    hide Sound, HeldOk;
  }

  lemma AnswersTick(c: Core, since: nat, high: bool)
    requires Answers(c, since) && !Tick(c.phy, high).rx.state.Completed?
    requires since < ANSWER_ARM_TARGET_IDLE_TICKS || (since <= ANSWER_ARM_MAX_IDLE_TICKS && c.phy.lowRun >= LINE_HELD_TICKS)
    ensures Ready(c)
    ensures var r := IsrTick(c, high, None);
            && Answers(r, since + 1) && r.phy == Tick(c.phy, high) && r.tally == c.tally
            && r.clock.rxStart == Later(c.clock, c.phy, Tick(c.phy, high), high).rxStart && r.clock.edge == c.clock.edge
            && r.clock.now == c.clock.now + 1
  {
    hide Tick, TryArm, IsrTick, Rest;
    RestIsReady(c);
    Waits(c, since);
    BareTick(c, high, None);
  }

  /** Idle before the line is pulled low. */
  predicate Silent(c: Core, since: int) {
    Answers(c, since) && c.phy.state.Idle? && c.phy.debounce == 0 && c.phy.lowRun == 0 && c.tally.arms == []
  }

  lemma SilentPhy(p: Phy)
    requires WellFormed(p) && p.state.Idle? && !p.rx.state.Completed?
    ensures var q := Tick(p, true); q.state.Idle? && q.debounce == 0 && q.lowRun == 0 && !q.rx.state.Completed?
  {
  }

  lemma {:induction false} SilentRun(c: Core, since: nat, j: nat)
    requires Silent(c, since) && since + j < ANSWER_ARM_TARGET_IDLE_TICKS
    ensures Silent(Exec(c, LineRun(seq(j, i => true))), since + j)
    decreases j
  {
    hide IsrTick, Tick, Rest;
    if j > 0 {
      var line := seq(j, i => true);
      AtRestFacts(c);
      SilentPhy(c.phy);
      AnswersTick(c, since, true);
      RunSteps(c, line);
      assert line[1..] == seq(j - 1, i => true);
      SilentRun(IsrTick(c, true, None), since + 1, j - 1);
    }
  }

  const PULL := 30

  /** The line has been low for `j` ticks, from `PULL` ticks after the edge on. */
  predicate Pulled(c: Core, j: nat) {
    && Answers(c, PULL + j) && c.phy.lowRun == j && c.tally.arms == []
    && (j <= 1 ==> c.phy.state.Idle? && c.phy.debounce == j)
    && (j >= 2 ==> c.phy.state.Rx? && c.phy.rx.idle == 0 && c.clock.rxStart == c.clock.edge + PULL + 2)
  }

  lemma PulledPhy(p: Phy)
    requires Sound(p) && !p.busy && !p.rx.state.Completed? && p.lowRun < 0xFFFF
    ensures var q := Tick(p, false);
            && q.lowRun == p.lowRun + 1 && !q.rx.state.Completed?
            && (p.state.Rx? ==> q.state.Rx? && q.rx.state.Receiving? && q.rx.idle == 0)
            && (p.state.Idle? && p.debounce == 0 ==> q.state.Idle? && q.debounce == 1 && q.rx.state == p.rx.state)
            && (p.state.Idle? && p.debounce == 1 ==> q.state.Rx? && q.rx.state.Receiving? && q.rx.idle == 0)
  {
    hide Record, Finish, ReplayLow;
    ListeningTick(p, false);
    RecordIdle(p.rx, false);
    var e := CountRuns(p, false).(debounce := SatAdd(p.debounce, 0xFF));
    ReplayReceives(EnterRx(e), e.debounce);
  }

  lemma {:induction false} PulledRun(c: Core, j: nat, n: nat)
    requires Pulled(c, j) && PULL + j + n < ANSWER_ARM_MAX_IDLE_TICKS
    ensures Pulled(Exec(c, LineRun(seq(n, i => false))), j + n)
    decreases n
  {
    hide IsrTick, Tick, Rest, Sound;
    if n > 0 {
      var line := seq(n, i => false);
      AtRestFacts(c);
      PulledPhy(c.phy);
      NotReceiving(c.phy);
      AnswersTick(c, PULL + j, false);
      RunSteps(c, line);
      assert line[1..] == seq(n - 1, i => false);
      PulledRun(IsrTick(c, false, None), j + 1, n - 1);
    }
  }

  lemma NotReceiving(p: Phy)
    requires Sound(p)
    ensures p.state.Rx? <==> p.rx.state.Receiving?
  {
  }

  /** Let go one tick before the slot ends, the line counts as carrying another answer. */
  lemma ReleasedPhy(p: Phy)
    requires Sound(p) && p.state.Rx? && p.rx.idle == 0
    ensures var q := Tick(p, true); q.state.Rx? && q.lowRun == 0 && !q.rx.state.Completed?
  {
    RecordIdle(p.rx, true);
  }

  /** Released, and at the last tick in which the answer may be armed. */
  predicate Released(c: Core) {
    && Answers(c, ANSWER_ARM_MAX_IDLE_TICKS) && c.phy.state.Rx? && c.phy.lowRun == 0 && c.tally.arms == []
    && c.clock.rxStart == c.clock.edge + PULL + 2
  }

  lemma ReleaseTick(c: Core)
    requires Pulled(c, ANSWER_ARM_MAX_IDLE_TICKS - 1 - PULL)
    ensures Ready(c) && Released(IsrTick(c, true, None))
  {
    hide IsrTick, Tick, Rest, Sound;
    AtRestFacts(c);
    ReleasedPhy(c.phy);
    NotReceiving(c.phy);
    AnswersTick(c, ANSWER_ARM_MAX_IDLE_TICKS - 1, true);
  }

  lemma LastChanceArms(c: Core)
    requires Released(c) && Armable(c)
    ensures var a := ArmPending(c); |a.tally.arms| == 1 && a.tally.arms[0].since == ANSWER_ARM_MAX_IDLE_TICKS
  {
    hide HeldOk, LoadTx;
  }

  lemma LastChanceTick(c: Core, high: bool)
    requires Released(c)
    ensures Ready(c)
    ensures var arms := IsrTick(c, high, None).tally.arms; |arms| == 1 && arms[0].since == ANSWER_ARM_MAX_IDLE_TICKS
  {
    hide ArmPending, Sample, Conclude, StepHeld, DrainCompletedRx, Tick, Rest, Released;
    ReleasedRests(c);
    var a, s, k, h := Stages(c, high, None);
    ArmReady(c);
    LastChanceArms(c);
    ArmsKept(s, a.phy.busy);
    StepHeldKeepsPhy(k, None);
    DrainKeepsArms(h);
  }

  lemma ReleasedRests(c: Core)
    requires Released(c)
    ensures Rest(c)
  {
  }

  lemma ArmsKept(s: Core, wasBusy: bool)
    ensures Conclude(s, wasBusy).tally.arms == s.tally.arms
  {
    hide Tags, Push;
  }

  lemma DrainKeepsArms(h: Core)
    ensures DrainCompletedRx(h).tally == h.tally
  {
    hide Tags, Push;
  }

  // ---- The run ----

  const LET_GO: Action := TickWith(true, None)

  /** An answer to the query, silence, the line held low over the slot, and its release. */
  function HeldLow(answer: u8): seq<Action> {
    [TickWith(true, Some(answer))] + (LineRun(seq(13, i => true)) + (LineRun(seq(66, i => false)) + ([LET_GO] + [LET_GO])))
  }

  function LatestRun(answer: u8): seq<Action> {
    LineRun(QueryLine()) + HeldLow(answer)
  }

  /** The core holds the query, decoded to 24 bits at the centre phase. */
  predicate Asked(c: Core) {
    && Bare(c) && c.staged.None? && c.tally.arms == [] && c.clock.now - c.clock.edge == RX_IDLE_LINE_HIGH_TICKS
    && c.phy.state.Idle? && c.phy.debounce == 0
    && c.sniffer.held.Some? && var h := c.sniffer.held.value;
       && h.search == NewSearch(SNIFFED_BIT_LENGTHS) && h.ev.epoch == c.clock.busEpoch
       && |h.ev.capture.samples| == SAMPLE_BUF_LEN && At(EventWindow(h.ev), 0).bitLen == QUERY_BITS
  }

  lemma QueryIsHeld()
    ensures Rest(NewCore()) && Asked(Exec(NewCore(), LineRun(QueryLine())))
  {
    hide Exec, QueryLine, Ticks, Tick, ListenTo, IsrTick, Rest, RunsAgree, At, Decode, NewCore;
    NewCoreRests();
    var l, n := QueryLine(), |QueryLine()| - 1;
    NewListens();
    forall k | 0 <= k <= n ensures !ListenTo([] + l[..n][..k]).Heard? {
      assert [] + l[..n][..k] == l[..k];
      HeardAtTheEnd(k);
    }
    ListenRun(NewCore(), [], l[..n]);
    assert [] + l[..n] == l[..n];
    var c := Exec(NewCore(), LineRun(l[..n]));
    RunsAgreeAlways(LineRun(l[..n]));
    TicksSnoc(l[..n], l[n]);
    assert l == l[..n] + [l[n]];
    QueryDelivers();
    CaptureTick(c, l[n]);
    LineRunSnoc(l[..n], l[n]);
    ExecSplits(NewCore(), LineRun(l[..n]), [TickWith(l[n], None)]);
    ExecOne(c, l[n], None);
    CentreBits(Ticks(NewPhy(), l).rx.last);
  }

  lemma CentreBits(c: Capture)
    requires |c.samples| == SAMPLE_BUF_LEN
    ensures forall ev: RxEvent | ev.capture == c ::
              At(EventWindow(ev), 0) == Decode(WindowOf(c.samples, c.sampleCount), MAX_DECODED_BITS, 0)
  {
    hide Decode;
  }

  lemma NewListens()
    ensures Listened(NewCore(), [])
  {
    NewCoreRests();
  }

  lemma RunsAgreeAlways(run: seq<Action>)
    ensures Rest(NewCore()) && RunsAgree(Exec(NewCore(), run).phy) && SniffInv(Exec(NewCore(), run))
  {
    hide Exec, RunsAgree, NewCore;
    NewTiming();
    RunTiming(NewCore(), run);
    RunSniffs(NewCore(), run);
  }

  lemma {:induction false} LineRunSnoc(l: seq<bool>, high: bool)
    ensures LineRun(l + [high]) == LineRun(l) + [TickWith(high, None)]
    decreases |l|
  {
    if l == [] {
      assert l + [high] == [high];
      assert [high][1..] == [];
    } else {
      assert (l + [high])[1..] == l[1..] + [high];
      LineRunSnoc(l[1..], high);
    }
  }

  lemma AnswerStages(c: Core, answer: u8)
    requires Asked(c) && SniffInv(c)
    ensures Ready(c) && Silent(IsrTick(c, true, Some(answer)), 17)
  {
    hide IsrTick, Tick, Rest, SniffInv, At;
    AtRestFacts(c);
    SilentPhy(c.phy);
    StageTick(c, answer);
  }

  lemma SilentIsPulled(c: Core)
    requires Silent(c, PULL)
    ensures Pulled(c, 0)
  {
  }

  /** From the query held to the answer armed. */
  lemma HeldLowArms(c: Core, answer: u8)
    requires Rest(c) && Asked(c) && SniffInv(c)
    ensures var arms := Exec(c, HeldLow(answer)).tally.arms; |arms| == 1 && arms[0].since == ANSWER_ARM_MAX_IDLE_TICKS
  {
    hide Exec, LineRun, IsrTick, Rest, Asked, Silent, Pulled, Released, SniffInv;
    AnswerStages(c, answer);
    ExecOne(c, true, Some(answer));
    var c1 := Exec(c, [TickWith(true, Some(answer))]);
    SilentRun(c1, 17, 13);
    var c2 := Exec(c1, LineRun(seq(13, i => true)));
    SilentIsPulled(c2);
    PulledRun(c2, 0, 66);
    var c3 := Exec(c2, LineRun(seq(66, i => false)));
    ReleaseTick(c3);
    ExecOne(c3, true, None);
    var c4 := Exec(c3, [LET_GO]);
    LastChanceTick(c4, true);
    ExecOne(c4, true, None);
    ExecSplits(c3, [LET_GO], [LET_GO]);
    ExecSplits(c2, LineRun(seq(66, i => false)), [LET_GO] + [LET_GO]);
    ExecSplits(c1, LineRun(seq(13, i => true)), LineRun(seq(66, i => false)) + ([LET_GO] + [LET_GO]));
    ExecSplits(c, [TickWith(true, Some(answer))],
               LineRun(seq(13, i => true)) + (LineRun(seq(66, i => false)) + ([LET_GO] + [LET_GO])));
  }

  /** Whatever the answer is, that run arms it in the last tick of its slot, and it starts too late by the last dominant sample. */
  lemma LatestArmIsReached(answer: u8)
    ensures Rest(NewCore())
    ensures var c := Exec(NewCore(), LatestRun(answer));
            && |c.tally.arms| == 1 && c.tally.arms[0].since == ANSWER_ARM_MAX_IDLE_TICKS
            && Gap(c.tally.arms[0]) * PHY_TICK_US > BACKWARD_MAX_US
  {
    hide Exec, QueryLine, LineRun, Rest, Asked, HeldLow, WellTimed, NewCore;
    NewTiming();
    QueryIsHeld();
    RunsAgreeAlways(LineRun(QueryLine()));
    HeldLowArms(Exec(NewCore(), LineRun(QueryLine())), answer);
    ExecSplits(NewCore(), LineRun(QueryLine()), HeldLow(answer));
    RunTiming(NewCore(), LatestRun(answer));
    var c := Exec(NewCore(), LatestRun(answer));
    assert NoteOk(c.clock, c.tally.arms[0]) && WellTimed(c.tally.arms[0]);
    SlotIsInsideTheBounds(c.tally.arms[0]);
  }
}
