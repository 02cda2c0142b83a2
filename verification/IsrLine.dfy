/**
 The line under an answer: in every run an answer is armed exactly when its query was the last
 traffic, its slot is open, and the line carries neither a forward frame of somebody else nor a
 level held low (isr.rs, backward_window.rs).
 */
module IsrLine {
  import opened Wrappers
  import HalfBits
  import opened Fsm
  import opened PhaseSearch
  import opened RxDecode
  import opened PhySteps
  import opened Isr
  import opened IsrBase
  import opened IsrSniffer
  import opened IsrAnswers
  import opened IsrTiming

  // ---- What the wire says ----

  /** Two dominant samples in a row: what a reception begins with. */
  predicate Starts(wire: seq<Instant>, s: int) {
    0 <= s && s + 1 < |wire| && !wire[s].high && !wire[s + 1].high
  }

  predicate SixteenHigh(wire: seq<Instant>, u: int) {
    0 <= u && u + 16 <= |wire| && forall i | u <= i < u + 16 :: wire[i].high
  }

  /** Sixteen recessive samples in a row between samples `s` and `n`: what a reception ends with. */
  predicate Over(wire: seq<Instant>, s: int, n: int) {
    exists u | s < u <= n - 16 :: SixteenHigh(wire, u)
  }

  /** A frame that began less than 24 ticks after `e`, too early for an answer, is still being received at `n`. */
  predicate ForwardUnder(wire: seq<Instant>, e: int, n: int) {
    exists s | e <= s < e + 24 && s + 1 < n :: Starts(wire, s) && !Over(wire, s, n)
  }

  /** The line has been dominant for the last 24 samples before `n`. */
  predicate HeldLow(wire: seq<Instant>, n: int) {
    24 <= n <= |wire| && forall i | n - 24 <= i < n :: !wire[i].high
  }

  /** A forward frame whose last edge was at `e` was decoded as 24 bits. */
  predicate Asked(pushed: seq<RxEvent>, e: int) {
    exists k | 0 <= k < |pushed| :: pushed[k].tick == e + 16 && OfQueryLength(pushed[k].decode)
  }

  predicate OfQueryLength(d: IsrDecode) {
    d.Decoded? && d.found.Some? && d.found.value.bitLen == 24
  }

  /** The answer was asked for, and the line was free when it was armed. */
  predicate Sheltered(wire: seq<Instant>, pushed: seq<RxEvent>, n: ArmNote) {
    n.tick <= |wire| && !ForwardUnder(wire, n.edge, n.tick) && !HeldLow(wire, n.tick) && Asked(pushed, n.edge)
  }

  // ---- What the transceiver knows of it ----

  /** Whatever began between `e` and `m` is over. */
  predicate AllOver(wire: seq<Instant>, e: int, m: int) {
    forall s | e <= s < m && Starts(wire, s) :: Over(wire, s, |wire|)
  }

  predicate IdleOnWire(p: Phy, wire: seq<Instant>, e: nat) {
    && p.debounce <= 1 && AllOver(wire, e, |wire|)
    && if e < |wire| then p.debounce == 0 <==> wire[|wire| - 1].high else p.debounce == 0
  }

  /** The reception began at `f`, is not over, and all before it is. */
  predicate RxOnWire(wire: seq<Instant>, e: int, f: int) {
    e <= f && Starts(wire, f) && !Over(wire, f, |wire|) && AllOver(wire, e, f)
  }

  predicate InLead(p: Phy) {
    p.state.Tx? && p.tx.armed != 0 && !p.tx.answer
  }

  /** From the edge on the transceiver has only listened, or is about to send but has not begun. */
  predicate OnlyListened(p: Phy, k: Clock) {
    && 0 <= k.edge <= |k.wire|
    && (p.state.Idle? ==> IdleOnWire(p, k.wire, k.edge))
    && (p.state.Rx? ==> RxOnWire(k.wire, k.edge, k.rxStart - 2))
    && (InLead(p) ==> p.debounce == 0 && IdleOnWire(p, k.wire, k.edge))
  }

  predicate LowOnWire(p: Phy, wire: seq<Instant>) {
    && p.lowRun <= |wire| && (forall i | |wire| - p.lowRun <= i < |wire| :: !wire[i].high)
    && (p.lowRun < |wire| && p.lowRun < 0xFFFF ==> wire[|wire| - 1 - p.lowRun].high)
  }

  /** Nothing was captured or sent since, not counting a frame that has not begun. */
  predicate Untouched(c: Core, captured: nat, sent: int) {
    c.clock.captured == captured && c.clock.sent == sent + if InLead(c.phy) then 1 else 0
  }

  predicate StagedHears(c: Core) {
    c.staged.Some? ==>
      && Asked(c.sniffer.pushed, c.staged.value.edge)
      && (Untouched(c, c.staged.value.captured, c.staged.value.sent) ==> OnlyListened(c.phy, c.clock))
  }

  predicate HeldHears(c: Core) {
    c.sniffer.held.Some? ==>
      var h := c.sniffer.held.value;
      h.ev.tick == h.edge + 16 && (Untouched(c, h.captured, h.sent) ==> OnlyListened(c.phy, c.clock))
  }

  /** At most one answer is on its way; one that is still staged for an earlier query goes before the search begins. */
  predicate OneAnswer(c: Core) {
    && (c.staged.Some? && c.sniffer.held.Some? ==>
          c.staged.value.captured < c.sniffer.held.value.captured && c.sniffer.held.value.search.step == 0 && !c.phy.busy)
    && (c.session.isAnswer ==> c.staged.None? && c.sniffer.held.None?)
  }

  predicate CellIsFree(c: Core) {
    c.sniffer.held.Some? ==> c.staged.None?
  }

  predicate HearInv(c: Core) {
    && LowOnWire(c.phy, c.clock.wire) && OneAnswer(c) && StagedHears(c) && HeldHears(c)
    && forall i | 0 <= i < |c.tally.arms| :: Sheltered(c.clock.wire, c.sniffer.pushed, c.tally.arms[i])
  }

  // ---- The wire grows ----

  lemma OverStays(wire: seq<Instant>, next: Instant, s: int, n: int)
    requires n <= |wire|
    ensures Over(wire + [next], s, n) <==> Over(wire, s, n)
  {
    var w := wire + [next];
    if Over(w, s, n) {
      var u :| s < u <= n - 16 && SixteenHigh(w, u);
      assert SixteenHigh(wire, u) by {
        forall i | u <= i < u + 16 ensures wire[i].high {
          assert w[i] == wire[i];
        }
      }
    }
    if Over(wire, s, n) {
      var u :| s < u <= n - 16 && SixteenHigh(wire, u);
      assert SixteenHigh(w, u);
    }
  }

  lemma OverLasts(wire: seq<Instant>, s: int, n: int, m: int)
    requires n <= m && Over(wire, s, n)
    ensures Over(wire, s, m)
  {
    var u :| s < u <= n - 16 && SixteenHigh(wire, u);
    assert u <= m - 16;
  }

  /** What was said of the wire up to `n` does not change. */
  lemma ForwardUnderStays(wire: seq<Instant>, next: Instant, e: int, n: int)
    requires n <= |wire|
    ensures ForwardUnder(wire + [next], e, n) <==> ForwardUnder(wire, e, n)
    ensures HeldLow(wire + [next], n) <==> HeldLow(wire, n)
  {
    hide Over;
    var w := wire + [next];
    forall s ensures Over(w, s, n) <==> Over(wire, s, n) {
      OverStays(wire, next, s, n);
    }
    if ForwardUnder(w, e, n) {
      var s :| e <= s < e + 24 && s + 1 < n && Starts(w, s) && !Over(w, s, n);
      assert Starts(wire, s);
    }
    if ForwardUnder(wire, e, n) {
      var s :| e <= s < e + 24 && s + 1 < n && Starts(wire, s) && !Over(wire, s, n);
      assert Starts(w, s);
    }
    if HeldLow(w, n) {
      forall i | n - 24 <= i < n ensures !wire[i].high {
        assert w[i] == wire[i];
      }
    }
  }

  lemma AllOverGrows(wire: seq<Instant>, next: Instant, e: int, m: int)
    requires 0 <= e && m <= |wire| && AllOver(wire, e, m)
    requires m == |wire| && m > e ==> wire[m - 1].high || next.high
    ensures AllOver(wire + [next], e, m)
  {
    hide Over;
    var w := wire + [next];
    forall s | e <= s < m && Starts(w, s) ensures Over(w, s, |w|) {
      assert w[s] == wire[s];
      if s + 1 < |wire| {
        assert w[s + 1] == wire[s + 1];
        assert Starts(wire, s);
        OverStays(wire, next, s, |wire|);
        OverLasts(w, s, |wire|, |w|);
      }
    }
  }

  lemma LowGrows(p: Phy, wire: seq<Instant>, high: bool, out: bool)
    requires LowOnWire(p, wire)
    ensures LowOnWire(CountRuns(p, high), wire + [Instant(high, out)])
  {
  }

  // ---- The transceiver's tick ----

  lemma TickCountsLows(p: Phy, high: bool)
    requires WellFormed(p)
    ensures Tick(p, high).lowRun == CountRuns(p, high).lowRun
  {
    hide Record, Finish, HalfBits.Dominant, TickIdle;
    var c := CountRuns(p, high);
    IdleKeepsLows(c, high);
    IdleKeepsLows(SetBusIdle(c.(tx := c.tx.(yielded := true, armed := 0))), high);
    IdleKeepsLows(SetBusIdle(c.(tx := c.tx.(slot := (c.tx.slot + 1) % 0x100, idleAfterBreak := high))), high);
  }

  lemma IdleKeepsLows(p: Phy, high: bool)
    requires WellFormed(p)
    ensures TickIdle(p, high).lowRun == p.lowRun
  {
    hide ReplayLow;
    var e := p.(debounce := SatAdd(p.debounce, 0xFF));
    ReplayKeepsLows(EnterRx(e), e.debounce);
  }

  lemma {:induction false} ReplayKeepsLows(p: Phy, ticks: nat)
    requires WellFormed(p)
    ensures ReplayLow(p, ticks).lowRun == p.lowRun
    decreases ticks
  {
    hide Record, Finish;
    if ticks > 0 {
      ReplayKeepsLows(TickRx(p, false), ticks - 1);
    }
  }

  /** An idle line: it stays idle, or the second dominant sample in a row begins a reception. */
  lemma IdleTick(p: Phy, high: bool)
    requires Sound(p) && p.state.Idle? && p.debounce <= 1
    ensures var q := Tick(p, high);
            if high then q.state.Idle? && q.debounce == 0
            else if p.debounce == 0 then q.state.Idle? && q.debounce == 1
            else q.state.Rx?
  {
    hide ReplayLow;
    var c := CountRuns(p, high);
    var e := c.(debounce := SatAdd(c.debounce, 0xFF));
    ReplayReceives(EnterRx(e), e.debounce);
  }

  /** A frame that has not begun: it goes on, or gives way to the first dominant sample. */
  lemma LeadTick(p: Phy, high: bool)
    requires Sound(p) && InLead(p) && p.debounce == 0
    ensures var q := Tick(p, high);
            if high then q.state.Tx? && q.debounce == 0 && q.tx.armed == p.tx.armed - 1
            else q.state.Idle? && q.debounce == 1
  {
    hide ReplayLow;
  }

  /** A reception goes on, or ends with the sixteenth recessive sample in a row. */
  lemma RxTick(p: Phy, high: bool)
    requires Sound(p) && p.state.Rx? && RunsAgree(p)
    ensures var q := Tick(p, high);
            if high && p.highRun == 15 then q.state.Idle? && q.debounce == 0 else q.state.Rx? && q.highRun < 16
  {
    hide Finish;
  }

  lemma ReceptionGoesOn(p: Phy, wire: seq<Instant>, next: Instant, e: int, f: int)
    requires 0 <= e && RxOnWire(wire, e, f) && RunOnWire(p, wire) && p.highRun < 16
    requires !(next.high && p.highRun == 15)
    ensures RxOnWire(wire + [next], e, f)
  {
    hide AllOver;
    var w := wire + [next];
    assert Starts(w, f);
    AllOverGrows(wire, next, e, f);
    OverStays(wire, next, f, |wire|);
    if Over(w, f, |w|) {
      var u :| f < u <= |w| - 16 && SixteenHigh(w, u);
      LastSixteen(p, wire, next, u);
    }
  }

  lemma LastSixteen(p: Phy, wire: seq<Instant>, next: Instant, u: int)
    requires RunOnWire(p, wire) && p.highRun < 16 && u == |wire| - 15 && SixteenHigh(wire + [next], u)
    ensures next.high && p.highRun == 15
  {
    var w := wire + [next];
    assert w[|wire|] == next;
    assert forall i | u <= i < |wire| :: wire[i] == w[i];
  }

  lemma ReceptionEnds(p: Phy, wire: seq<Instant>, next: Instant, e: int)
    requires 0 <= e && RunOnWire(p, wire) && p.highRun == 15 && next.high
    ensures AllOver(wire + [next], e, |wire| + 1)
  {
    var w := wire + [next];
    var u := |w| - 16;
    assert SixteenHigh(w, u);
    forall s | e <= s < |w| && Starts(w, s) ensures Over(w, s, |w|) {
      assert s < u;
    }
  }

  lemma ReceptionBegins(wire: seq<Instant>, next: Instant, e: int)
    requires 0 <= e < |wire| && AllOver(wire, e, |wire|) && !wire[|wire| - 1].high && !next.high
    ensures RxOnWire(wire + [next], e, |wire| - 1)
  {
    hide AllOver;
    var w := wire + [next];
    assert Starts(w, |wire| - 1);
    AllOverLess(wire, e, |wire|, |wire| - 1);
    AllOverGrows(wire, next, e, |wire| - 1);
  }

  lemma AllOverLess(wire: seq<Instant>, e: int, m: int, l: int)
    requires l <= m && AllOver(wire, e, m)
    ensures AllOver(wire, e, l)
  {
    hide Over;
  }

  lemma IdleGrows(wire: seq<Instant>, next: Instant, e: int)
    requires 0 <= e <= |wire| && AllOver(wire, e, |wire|) && (e < |wire| ==> wire[|wire| - 1].high || next.high)
    ensures AllOver(wire + [next], e, |wire| + 1)
  {
    hide Over;
    AllOverGrows(wire, next, e, |wire|);
    assert !Starts(wire + [next], |wire|);
  }

  /** Listening goes on through a tick, and the start of a reception is stamped two ticks late. */
  lemma ListenTick(p: Phy, k: Clock, high: bool, k': Clock)
    requires Sound(p) && RunsAgree(p) && RunOnWire(p, k.wire) && OnlyListened(p, k) && (!p.busy || InLead(p))
    requires k'.wire == k.wire + [Instant(high, Tick(p, high).out)] && k'.edge == k.edge
    requires k'.rxStart == if !p.state.Rx? && Tick(p, high).state.Rx? then |k.wire| + 1 else k.rxStart
    ensures OnlyListened(Tick(p, high), k')
  {
    hide Tick, AllOver, Over, Sound, RunOnWire, Starts;
    SoundStates(p);
    var next := Instant(high, Tick(p, high).out);
    if p.state.Rx? {
      RxTick(p, high);
      if high && p.highRun == 15 {
        ReceptionEnds(p, k.wire, next, k.edge);
      } else {
        ReceptionGoesOn(p, k.wire, next, k.edge, k.rxStart - 2);
      }
    } else if p.state.Idle? {
      IdleTick(p, high);
      if high || p.debounce == 0 {
        IdleGrows(k.wire, next, k.edge);
      } else {
        ReceptionBegins(k.wire, next, k.edge);
      }
    } else {
      LeadTick(p, high);
      IdleGrows(k.wire, next, k.edge);
    }
  }

  lemma SoundStates(p: Phy)
    requires Sound(p) && (!p.busy || InLead(p))
    ensures WellFormed(p) && (p.state.Idle? || p.state.Rx? || InLead(p)) && (!p.busy ==> !p.state.Tx?)
  {
  }

  // ---- Arming ----

  /** The transceiver's verdict on the line is what the wire says. */
  lemma LineIsExact(c: Core)
    requires Sound(c.phy) && !c.phy.busy && LowOnWire(c.phy, c.clock.wire) && OnlyListened(c.phy, c.clock)
    ensures var wire := c.clock.wire;
            LineUnder(c).LineBusy? <==> ForwardUnder(wire, c.clock.edge, |wire|) || HeldLow(wire, |wire|)
  {
    hide Over, Sound;
    SoundStates(c.phy);
    LowIsHeld(c.phy, c.clock.wire);
    var f := c.clock.rxStart - 2;
    if c.phy.state.Rx? && f < c.clock.edge + 24 {
      assert Starts(c.clock.wire, f) && !Over(c.clock.wire, f, |c.clock.wire|);
    }
  }

  lemma LowIsHeld(p: Phy, wire: seq<Instant>)
    requires LowOnWire(p, wire)
    ensures p.lowRun >= LINE_HELD_TICKS <==> HeldLow(wire, |wire|)
  {
    if |wire| >= 24 && p.lowRun < 24 {
      assert wire[|wire| - 1 - p.lowRun].high;
    }
  }

  /** An answer is due: nothing was captured or sent since its query, and its slot is open. */
  predicate Due(c: Core) {
    && !c.phy.busy && c.staged.Some?
    && c.staged.value.captured == c.clock.captured && c.staged.value.sent == c.clock.sent
    && 59 <= c.clock.now - c.clock.edge <= 97
  }

  predicate LineIsFree(k: Clock) {
    !ForwardUnder(k.wire, k.edge, |k.wire|) && !HeldLow(k.wire, |k.wire|)
  }

  lemma DueAgrees(c: Core)
    requires AnswerInv(c) && c.staged.Some? && !c.phy.busy
    ensures Due(c) <==> c.staged.value.epoch == c.clock.busEpoch && GateAt(TicksSinceForwardEdge(c.clock)).Arm?
  {
    hide TallyInv, HeldSince;
    if c.staged.value.epoch == c.clock.busEpoch {
      EpochsAgree(c);
    }
  }

  /** A due answer comes from the last edge, which the transceiver has listened from. */
  lemma DueHears(c: Core)
    requires Rest(c) && TimingInv(c) && HearInv(c) && Due(c)
    ensures OnlyListened(c.phy, c.clock) && c.staged.value.edge == c.clock.edge && Asked(c.sniffer.pushed, c.clock.edge)
  {
    hide RunOnWire, EdgeAt, NotesInv, Asked, OnlyListened, HeldOk, AllSendable, AnswerFrame, LowOnWire, Sheltered;
  }

  lemma FireHears(c: Core, since: nat, late: bool, over: bool)
    requires Rest(c) && TimingInv(c) && HearInv(c) && Due(c) && LineIsFree(c.clock) && HeldSince(c, 0)
    ensures HearInv(FireStagedAnswer(c, since, late, over))
  {
    hide Rest, ForwardUnder, HeldLow, Asked, OnlyListened, Untouched, NotesInv, QueryInv, EdgesInv;
    DueHears(c);
    LineIsKept(c);
    FireChanges(c, since, late, over);
  }

  lemma LineIsKept(c: Core)
    requires TimingInv(c)
    ensures |c.clock.wire| == c.clock.now
  {
  }

  lemma FireChanges(c: Core, since: nat, late: bool, over: bool)
    requires Rest(c) && c.staged.Some? && !c.phy.busy
    ensures var a := FireStagedAnswer(c, since, late, over);
            && a.phy.lowRun == c.phy.lowRun && a.clock == c.clock && a.staged.None? && a.sniffer == c.sniffer
            && (a.tally.arms == c.tally.arms || a.tally.arms == c.tally.arms + [NoteOf(c.staged.value, c.clock, since)])
            && (CanStartAnswer(c.phy, c.staged.value.frame) ==> a.tally.arms == c.tally.arms + [NoteOf(c.staged.value, c.clock, since)])
            && (c.sniffer.held.Some? && !a.session.isAnswer ==> a.phy == c.phy)
  {
    hide HeldOk, AllSendable;
  }

  /** An answer is armed exactly when it is due and the line is free. */
  lemma TryArmHears(c: Core)
    requires Rest(c) && !c.phy.busy && AnswerInv(c) && TimingInv(c) && HearInv(c)
    ensures var (a, tried) := TryArm(c);
            && HearInv(a) && CellIsFree(a)
            && |a.tally.arms| == |c.tally.arms| + if Due(c) && LineIsFree(c.clock) then 1 else 0
  {
    hide Rest, FireStagedAnswer, ForwardUnder, HeldLow, OnlyListened, LineUnder, GateAt, TicksSinceForwardEdge, LowOnWire;
    hide TallyInv, Since, EpochInv, TimingInv, Sheltered, Asked;
    ArmReady(c);
    EarlierIsStale(c);
    if c.staged.Some? {
      DueAgrees(c);
      if Due(c) {
        DueHears(c);
        DueLine(c);
        LineUnderStarts(c);
        var since := TicksSinceForwardEdge(c.clock);
        var late := GateAt(since).Arm? && GateAt(since).late;
        if LineIsFree(c.clock) {
          FireHears(c, since, late, LineUnder(c).LineBackward?);
          FireChanges(c, since, late, LineUnder(c).LineBackward?);
        }
      }
    }
  }

  lemma EarlierIsStale(c: Core)
    requires AnswerInv(c) && !c.phy.busy && OneAnswer(c)
    ensures c.staged.Some? && c.sniffer.held.Some? ==> c.staged.value.epoch != c.clock.busEpoch
  {
    hide TallyInv;
    if c.staged.Some? && c.sniffer.held.Some? && c.staged.value.epoch == c.clock.busEpoch {
      EpochsAgree(c);
      assert false;
    }
  }

  lemma DueLine(c: Core)
    requires Rest(c) && !c.phy.busy && HearInv(c) && OnlyListened(c.phy, c.clock)
    ensures LineUnder(c).LineBusy? <==> !LineIsFree(c.clock)
  {
    hide ForwardUnder, HeldLow, OnlyListened, LineUnder, LowOnWire, HeldOk, AllSendable, Sound;
    LineIsExact(c);
  }

  /** A frame that has not begun counts as sent and lets nothing go by. */
  lemma ArmForwardHears(c: Core)
    requires Rest(c) && c.phy.state.Idle? && c.session.window == 0 && !LineDebouncing(c.phy) && c.staged.None? && HearInv(c)
    ensures Armable(c)
    ensures var r := ArmForward(c);
            HearInv(r) && CellIsFree(r) && r.tally == c.tally && (!r.phy.busy ==> r.phy == c.phy)
  {
    hide ArmForward, HeldOk, AllSendable, AllOver, Sheltered, TakeUp;
    ArmReady(c);
    ArmForwardBase(c);
  }

  lemma CancelHears(c: Core)
    requires HearInv(c)
    ensures var k := ApplyRequestedCancel(c);
            && HearInv(k) && k.phy == c.phy && k.tally == c.tally
            && (Due(k) <==> Due(c)) && (LineIsFree(k.clock) <==> LineIsFree(c.clock))
  {
    hide Tags, OnlyListened, Sheltered, LowOnWire, Asked, ForwardUnder, HeldLow;
  }

  /** The tick puts an answer on the line exactly when one is due and the line is free. */
  lemma ArmPendingHears(c: Core)
    requires Rest(c) && AnswerInv(c) && TimingInv(c) && HearInv(c)
    ensures Armable(c)
    ensures var a := ArmPending(c);
            && HearInv(a) && CellIsFree(a) && (!a.phy.busy ==> a.phy == c.phy)
            && |a.tally.arms| == |c.tally.arms| + if Due(c) && LineIsFree(c.clock) then 1 else 0
  {
    hide Rest, ApplyRequestedCancel, TryArm, ArmForward, AnswerInv, TimingInv, HearInv, LineIsFree;
    ArmReady(c);
    CancelBase(c);
    CancelAnswers(c);
    CancelTiming(c);
    CancelHears(c);
    var k := ApplyRequestedCancel(c);
    ArmReady(k);
    BusyIsFree(k);
    if !k.phy.busy {
      TryArmBase(k);
      TryArmHears(k);
      var (a, tried) := TryArm(k);
      ArmedIsBusy(k);
      if tried.NotStaged? && a.session.window == 0 && a.phy.state.Idle? && !LineDebouncing(a.phy) {
        ArmForwardHears(a);
      }
    }
  }

  lemma BusyIsFree(k: Core)
    requires HearInv(k)
    ensures k.phy.busy ==> CellIsFree(k)
  {
    hide LowOnWire, StagedHears, HeldHears, Sheltered;
  }

  lemma ArmedIsBusy(k: Core)
    requires Rest(k) && !k.phy.busy
    ensures var (a, tried) := TryArm(k); !a.phy.busy ==> a.phy == k.phy
  {
    hide HeldOk, AllSendable, ReceptionBeganInTheBackwardWindow;
  }

  // ---- The tick on the wire ----

  lemma ShelterStays(wire: seq<Instant>, next: Instant, pushed: seq<RxEvent>, n: ArmNote)
    requires Sheltered(wire, pushed, n)
    ensures Sheltered(wire + [next], pushed, n)
  {
    hide ForwardUnder, HeldLow, Asked;
    ForwardUnderStays(wire, next, n.edge, n.tick);
  }

  /** What goes on after a tick had gone on before it. */
  lemma UntouchedBefore(a: Core, s: Core, high: bool, captured: nat, sent: int, bound: nat)
    requires Rest(a) && !a.session.isAnswer && Since(a, captured, sent, bound)
    requires Sampled(a, s) && s.phy == Tick(a.phy, high)
    requires Untouched(Conclude(s, a.phy.busy), captured, sent)
    ensures Untouched(a, captured, sent) && (!a.phy.busy || InLead(a.phy))
  {
    hide Tick, Sendable, HeldOk, AllSendable, Tags, PollTx, ReportForward;
    if a.phy.busy {
      SendingTick(a.phy, high);
      LeadComesFirst(a.phy, high);
      if !s.phy.busy {
        PollEnds(a, s);
        ForwardSent(s.(phy := PollTx(s.phy).0), PollTx(s.phy).1);
      }
    } else {
      ListeningTick(a.phy, high);
    }
  }

  lemma LeadComesFirst(p: Phy, high: bool)
    requires Sound(p) && p.busy
    ensures InLead(Tick(p, high)) ==> InLead(p)
  {
    hide HalfBits.Dominant, ReplayLow;
  }

  lemma ForwardSent(k: Core, poll: TxPoll)
    ensures var r := ReportForward(k, poll);
            && r.clock.captured == k.clock.captured && (poll.Yielded? ==> r.clock.sent == k.clock.sent - 1)
            && (!poll.Yielded? ==> r.clock.sent == k.clock.sent)
            && SameLine(r.phy, k.phy) && r.phy.tx.armed == k.phy.tx.armed
  {
    hide Tags, PushEvent;
  }

  /** The stamp of a reception's start. */
  lemma StampsStart(c: Core, a: Core, s: Core, high: bool)
    requires Rest(c) && Rest(a) && (!a.phy.busy ==> a.phy == c.phy) && s == Sample(a, high, c.phy.rx.state)
    ensures s.clock.rxStart == if !a.phy.state.Rx? && s.phy.state.Rx? then a.clock.now + 1 else a.clock.rxStart
  {
    hide Tick, Sendable, HeldOk, AllSendable;
    if a.phy.busy {
      SendingTick(a.phy, high);
    } else {
      ListeningTick(a.phy, high);
    }
  }

  /** Listening goes on through a whole tick. */
  lemma ListenedOn(a: Core, s: Core, high: bool)
    requires Rest(a) && LineInv(a.phy, a.clock) && OnlyListened(a.phy, a.clock) && (!a.phy.busy || InLead(a.phy))
    requires Sampled(a, s) && s.phy == Tick(a.phy, high) && s.clock.wire == a.clock.wire + [Instant(high, s.phy.out)]
    requires s.clock.rxStart == if !a.phy.state.Rx? && s.phy.state.Rx? then a.clock.now + 1 else a.clock.rxStart
    ensures var k := Conclude(s, a.phy.busy); OnlyListened(k.phy, k.clock)
  {
    hide Tick, Sendable, HeldOk, AllSendable, Tags, PollTx, ReportForward, IdleOnWire, RxOnWire, EdgesInv, RunOnWire;
    ListenTick(a.phy, a.clock, high, s.clock);
    if a.phy.busy && !s.phy.busy {
      SendingTick(a.phy, high);
      PollEnds(a, s);
      CompletionTiming(a, s);
      SameIdle(s.phy, s.clock, ReportCompletion(s).phy, ReportCompletion(s).clock);
    }
  }

  lemma SameIdle(p: Phy, k: Clock, q: Phy, k': Clock)
    requires OnlyListened(p, k) && SameLine(q, p) && !q.state.Tx?
    requires k'.wire == k.wire && k'.edge == k.edge && k'.rxStart == k.rxStart
    ensures OnlyListened(q, k')
  {
    hide AllOver;
  }

  lemma ConcludeHears(a: Core, s: Core, high: bool)
    requires Rest(a) && ArmedInv(a) && LineInv(a.phy, a.clock) && HearInv(a) && CellIsFree(a)
    requires Sampled(a, s) && s.phy == Tick(a.phy, high) && s.clock.wire == a.clock.wire + [Instant(high, s.phy.out)]
    requires s.clock.rxStart == if !a.phy.state.Rx? && s.phy.state.Rx? then a.clock.now + 1 else a.clock.rxStart
    ensures var k := Conclude(s, a.phy.busy);
            && HearInv(k) && CellIsFree(k) && k.tally.arms == a.tally.arms
            && (k.phy.rx.state.Completed? ==> k.phy.state.Idle? && k.phy.debounce == 0)
  {
    hide Rest, Tick, Conclude, OnlyListened, Untouched, Since, LineInv, EpochInv, Asked, Sheltered, LowOnWire;
    var k := Conclude(s, a.phy.busy);
    ConcludeChanges(a, s, high);
    if a.staged.Some? && Untouched(k, a.staged.value.captured, a.staged.value.sent) {
      UntouchedBefore(a, s, high, a.staged.value.captured, a.staged.value.sent, if a.phy.busy then 5 else 0);
      ListenedOn(a, s, high);
    }
    if a.sniffer.held.Some? && Untouched(k, a.sniffer.held.value.captured, a.sniffer.held.value.sent) {
      UntouchedBefore(a, s, high, a.sniffer.held.value.captured, a.sniffer.held.value.sent,
                      a.sniffer.held.value.search.step + 1);
      ListenedOn(a, s, high);
    }
    forall i | 0 <= i < |k.tally.arms| ensures Sheltered(k.clock.wire, k.sniffer.pushed, k.tally.arms[i]) {
      ShelterStays(a.clock.wire, Instant(high, s.phy.out), a.sniffer.pushed, a.tally.arms[i]);
    }
  }

  lemma ConcludeChanges(a: Core, s: Core, high: bool)
    requires Rest(a) && LowOnWire(a.phy, a.clock.wire)
    requires Sampled(a, s) && s.phy == Tick(a.phy, high) && s.clock.wire == a.clock.wire + [Instant(high, s.phy.out)]
    ensures var k := Conclude(s, a.phy.busy);
            && k.staged == a.staged && k.sniffer == a.sniffer && k.tally.arms == a.tally.arms && k.clock.wire == s.clock.wire
            && (k.session.isAnswer ==> a.session.isAnswer) && LowOnWire(k.phy, k.clock.wire)
            && (k.phy.rx.state.Completed? ==> k.phy.state.Idle? && k.phy.debounce == 0)
  {
    hide Tick, Sendable, HeldOk, AllSendable, Tags;
    LowGrows(a.phy, a.clock.wire, high, s.phy.out);
    TickCountsLows(a.phy, high);
    CompletedIsIdle(a.phy, high);
    if a.phy.busy {
      SendingTick(a.phy, high);
      if !s.phy.busy {
        CompletionTiming(a, s);
      }
    } else {
      ListeningTick(a.phy, high);
    }
  }

  lemma CompletedIsIdle(p: Phy, high: bool)
    requires Sound(p) && !p.rx.state.Completed?
    ensures var q := Tick(p, high); q.rx.state.Completed? ==> q.state.Idle? && q.debounce == 0
  {
    hide ReplayLow, HalfBits.Dominant;
    if p.busy {
      SendingTick(p, high);
    } else if p.state.Idle? {
      ListeningTick(p, high);
    }
  }

  // ---- Captures ----

  lemma AskedStays(pushed: seq<RxEvent>, more: seq<RxEvent>, e: int)
    requires Asked(pushed, e)
    ensures Asked(pushed + more, e)
  {
    hide OfQueryLength;
    var k :| 0 <= k < |pushed| && pushed[k].tick == e + 16 && OfQueryLength(pushed[k].decode);
    assert (pushed + more)[k] == pushed[k];
  }

  lemma SheltersStay(wire: seq<Instant>, pushed: seq<RxEvent>, more: seq<RxEvent>, arms: seq<ArmNote>)
    requires forall i | 0 <= i < |arms| :: Sheltered(wire, pushed, arms[i])
    ensures forall i | 0 <= i < |arms| :: Sheltered(wire, pushed + more, arms[i])
  {
    hide ForwardUnder, HeldLow, Asked;
    forall i | 0 <= i < |arms| ensures Sheltered(wire, pushed + more, arms[i]) {
      AskedStays(pushed, more, arms[i].edge);
    }
  }

  /** The search that ends has what was asked, and the answer to it waits from the same edge. */
  lemma StepHeldHears(k: Core, answer: Option<u8>)
    requires HeldOk(k.sniffer) && HearInv(k) && CellIsFree(k)
    ensures var h := StepHeld(k, answer);
            HearInv(h) && CellIsFree(h) && h.tally == k.tally && h.phy == k.phy && h.clock == k.clock && h.session == k.session
  {
    hide SearchStep, EventWindow, OnlyListened, Sheltered, LowOnWire, EncodedFrame, Asked;
    if k.sniffer.held.Some? {
      var was := k.sniffer.held.value;
      var outcome := SearchStep(was.search, EventWindow(was.ev)).1;
      if outcome.Done? {
        var ev := was.ev.(decode := Decoded(outcome.found));
        SheltersStay(k.clock.wire, k.sniffer.pushed, [ev], k.tally.arms);
        if OfQueryLength(ev.decode) {
          LastIsAsked(k.sniffer.pushed, ev, was.edge);
        }
      }
    }
  }

  lemma LastIsAsked(pushed: seq<RxEvent>, ev: RxEvent, e: int)
    requires ev.tick == e + 16 && OfQueryLength(ev.decode)
    ensures Asked(pushed + [ev], e)
  {
    assert (pushed + [ev])[|pushed|] == ev;
  }

  /** From a new edge on nothing has begun yet. */
  lemma NewEdgeListens(p: Phy, k: Clock)
    requires p.state.Idle? && p.debounce == 0 && k.edge == |k.wire| - 16 && EdgeAt(k.wire, k.edge)
    ensures OnlyListened(p, k)
  {
    hide Over;
  }

  /** What routing a capture changes: the sniffer may hold it, stamped with the counts of now, or pass it on. */
  predicate Routed(c: Core, r: Core, tick: int) {
    && r.phy == c.phy && r.clock == c.clock && r.staged == c.staged && r.tally == c.tally
    && r.session.isAnswer == c.session.isAnswer && c.sniffer.pushed <= r.sniffer.pushed
    && (r.sniffer.held.Some? ==>
          var h := r.sniffer.held.value;
          && h.captured == c.clock.captured && h.sent == c.clock.sent && h.edge == c.clock.edge && h.ev.tick == tick
          && h.search.step == 0)
  }

  lemma RouteListens(c: Core, ev: RxEvent)
    requires c.sniffer.held.None?
    ensures Routed(c, RouteForward(c, ev), ev.tick)
    ensures LengthClass(ev.capture.sampleCount).Backward? ==>
              Routed(c, RouteBackward(c, ev), ev.tick) && RouteBackward(c, ev).sniffer.held.None?
  {
    hide Tags, PushEvent;
  }

  lemma RoutedHears(c: Core, r: Core, tick: int)
    requires HearInv(c) && c.sniffer.held.None? && !c.session.isAnswer && Routed(c, r, tick)
    requires r.sniffer.held.Some? ==>
               && tick == c.clock.edge + 16 && OnlyListened(c.phy, c.clock) && !c.phy.busy
               && (c.staged.Some? ==> c.staged.value.captured < c.clock.captured)
    ensures HearInv(r)
  {
    hide OnlyListened, Sheltered, LowOnWire, Asked;
    var more := r.sniffer.pushed[|c.sniffer.pushed|..];
    assert r.sniffer.pushed == c.sniffer.pushed + more;
    SheltersStay(c.clock.wire, c.sniffer.pushed, more, c.tally.arms);
    if c.staged.Some? {
      AskedStays(c.sniffer.pushed, more, c.staged.value.edge);
    }
  }

  /** A new edge: what was staged before it is of an earlier query. */
  lemma CaptureHears(c: Core)
    requires HearInv(c) && c.sniffer.held.None? && StagedSince(c, 5) && !c.session.isAnswer && |c.clock.wire| == c.clock.now
    requires c.phy.state.Idle? && c.phy.debounce == 0 && c.phy.idleCount == 16
    requires EdgeAt(c.clock.wire, c.clock.now - 16)
    ensures var n := NoteForwardCapture(c);
            && HearInv(n) && OnlyListened(n.phy, n.clock) && n.clock.now == n.clock.edge + 16
            && (n.staged.Some? ==> n.staged.value.captured < n.clock.captured)
  {
    hide OnlyListened, Sheltered, LowOnWire, Asked, EdgeAt;
    NewEdgeListens(c.phy, NoteForwardCapture(c).clock);
  }

  lemma DrainHears(h: Core)
    requires HearInv(h) && StagedSince(h, 5) && |h.clock.wire| == h.clock.now
    requires h.phy.rx.state.Completed? ==>
               && !h.phy.busy && !h.session.isAnswer && h.sniffer.held.None? && h.phy.state.Idle? && h.phy.debounce == 0
               && h.phy.idleCount == 16 && EdgeAt(h.clock.wire, h.clock.now - 16)
    ensures HearInv(DrainCompletedRx(h)) && DrainCompletedRx(h).tally == h.tally
  {
    hide Sheltered, EdgeAt, RouteForward, RouteBackward, LowOnWire, Since, OnlyListened, Asked, NoteForwardCapture;
    if h.phy.rx.state.Completed? {
      var c := h.(phy := TakeCompleted(h.phy).0);
      TakenHears(h);
      var ev := RxEvent(h.phy.rx.last, c.clock.busEpoch, c.clock.now, 0, NotDecoded);
      if LengthClass(h.phy.rx.last.sampleCount).Forward? {
        CaptureHears(c);
        var n := NoteForwardCapture(c);
        NotesNothingElse(c);
        var fev := RxEvent(h.phy.rx.last, n.clock.busEpoch, n.clock.now, 0, NotDecoded);
        RouteListens(n, fev);
        RoutedHears(n, RouteForward(n, fev), n.clock.now);
      } else {
        RouteListens(c, ev);
        RoutedHears(c, RouteBackward(c, ev), ev.tick);
      }
    }
  }

  lemma NotesNothingElse(c: Core)
    ensures NoteForwardCapture(c) == c.(clock := NoteForwardCapture(c).clock)
  {
  }

  lemma TakenHears(h: Core)
    requires HearInv(h) && StagedSince(h, 5) && h.phy.state.Idle?
    ensures var c := h.(phy := TakeCompleted(h.phy).0); HearInv(c) && StagedSince(c, 5)
  {
    hide Sheltered, AllOver, Asked;
  }

  lemma TickHears(c: Core, high: bool, answer: Option<u8>)
    requires Rest(c) && SniffInv(c) && AnswerInv(c) && TimingInv(c) && HearInv(c)
    ensures Ready(c)
    ensures var r := IsrTick(c, high, answer);
            HearInv(r) && |r.tally.arms| == |c.tally.arms| + if Due(c) && LineIsFree(c.clock) then 1 else 0
  {
    hide ArmPending, Sample, Conclude, StepHeld, DrainCompletedRx, Tick, Rest, Base, InSequence, Underway, TimingInv, HearInv;
    hide EpochInv, TallyInv, Since, AnswerInv, LineIsFree, Due, LineInv, EdgeAt;
    var a, s, k, h := Stages(c, high, answer);
    ArmPendingHears(c);
    ArmPendingTiming(c);
    ArmPendingAnswers(c);
    StampsStart(c, a, s, high);
    TimingLines(a);
    ConcludeHears(a, s, high);
    ConcludeTiming(a, s, high);
    SampleAnswers(a, s, high);
    KeptSniffer(s, a.phy.busy);
    ArmKeepsSniffer(c);
    Widen(k, a.phy.busy);
    StepHeldHears(k, answer);
    StepHeldAnswers(k, answer);
    StepHeldTiming(k, answer);
    HeardWhileFree(c, high, answer, a, s, k, h);
    LineIsKept(h);
    DrainHears(h);
  }

  lemma TimingLines(a: Core)
    requires TimingInv(a)
    ensures LineInv(a.phy, a.clock)
  {
  }

  // ---- Runs ----

  lemma StepHears(c: Core, a: Action)
    requires Rest(c) && SniffInv(c) && AnswerInv(c) && TimingInv(c) && HearInv(c)
    ensures Ready(c) && HearInv(Step(c, a))
  {
    hide IsrTick, PopSessionEventFor, LowOnWire, OnlyListened, Sheltered, Asked, AnswerInv, SniffInv, TimingInv;
    RestIsReady(c);
    match a
    case TickWith(high, answer) =>
      TickHears(c, high, answer);
    case PopEvent(e) =>
      PopKeeps(c, e);
    case _ =>
  }

  lemma {:induction false} RunHears(c: Core, run: seq<Action>)
    requires Rest(c) && SniffInv(c) && AnswerInv(c) && TimingInv(c) && HearInv(c)
    ensures var r := Exec(c, run); SniffInv(r) && AnswerInv(r) && TimingInv(r) && HearInv(r)
    decreases |run|
  {
    hide Step, SniffInv, Rest, AnswerInv, TimingInv, HearInv;
    if run != [] {
      StepRests(c, run[0]);
      StepSniffs(c, run[0]);
      StepAnswers(c, run[0]);
      StepTiming(c, run[0]);
      StepHears(c, run[0]);
      RunHears(Step(c, run[0]), run[1..]);
    }
  }

  lemma NewHears()
    ensures HearInv(NewCore())
  {
  }

  /**
   In every run every answer armed was asked for by a frame decoded as 24 bits that ended at its
   edge, and was armed with no other frame under way that began less than 24 ticks after that edge
   and with the line not dominant for the last 24 samples.
   */
  lemma AnswersAreSheltered(run: seq<Action>)
    ensures Rest(NewCore())
    ensures var c := Exec(NewCore(), run);
            forall i | 0 <= i < |c.tally.arms| :: Sheltered(c.clock.wire, c.sniffer.pushed, c.tally.arms[i])
  {
    hide Exec, Sheltered, NewCore, Rest, SniffInv, AnswerInv, TimingInv, OneAnswer, StagedHears, HeldHears, LowOnWire;
    NewTiming();
    NewHears();
    RunHears(NewCore(), run);
  }

  /** In every run the cell is free when a search may end: no answer is ever refused for another. */
  lemma AnswerCellIsFree(run: seq<Action>)
    ensures Rest(NewCore()) && Armable(Exec(NewCore(), run))
    ensures CellIsFree(ArmPending(Exec(NewCore(), run)))
  {
    hide Exec, NewCore, Rest, SniffInv, AnswerInv, TimingInv, HearInv, ArmPending;
    NewTiming();
    NewHears();
    RunHears(NewCore(), run);
    ArmPendingHears(Exec(NewCore(), run));
  }

  /**
   After any run the next tick arms an answer exactly when nothing is being sent, one is staged,
   nothing was captured or sent since its query, that query's last edge was 59 to 97 ticks ago, and
   the line is free.
   */
  lemma AnswerIsArmedIff(run: seq<Action>, high: bool, answer: Option<u8>)
    ensures Rest(NewCore()) && Ready(Exec(NewCore(), run))
    ensures var c := Exec(NewCore(), run);
            var r := IsrTick(c, high, answer);
            |r.tally.arms| == |c.tally.arms| + if Due(c) && LineIsFree(c.clock) then 1 else 0
  {
    hide Exec, NewCore, Rest, SniffInv, AnswerInv, TimingInv, HearInv, IsrTick, Due, LineIsFree;
    NewTiming();
    NewHears();
    RunHears(NewCore(), run);
    TickHears(Exec(NewCore(), run), high, answer);
  }
}
