/**
 The held 24-bit capture is always decoded before the next capture can complete, so nothing is
 overrun and captures reach the sniffer ring in order, fully searched (isr.rs).
 */
module IsrSniffer {
  import opened Wrappers
  import opened Fsm
  import opened PhaseSearch
  import opened RxDecode
  import opened PhySteps
  import opened Isr
  import opened IsrBase

  function NeededFor(ev: RxEvent): nat
    requires |ev.capture.samples| == SAMPLE_BUF_LEN
  {
    StepsNeeded(EventWindow(ev), SNIFFED_BIT_LENGTHS)
  }

  /** A search one phase per tick that is still under way. */
  predicate Underway(h: Held) {
    && |h.ev.capture.samples| == SAMPLE_BUF_LEN && h.ev.decode.NotDecoded?
    && IsForward24Length(h.ev.capture.sampleCount)
    && h.search.step < NeededFor(h.ev)
    && h.search == SearchAfter(SNIFFED_BIT_LENGTHS, EventWindow(h.ev), h.search.step).0
  }

  /** A capture as tasks get it: searched to completion when it is as long as a 24-bit frame. */
  predicate Settled(ev: RxEvent) {
    && |ev.capture.samples| == SAMPLE_BUF_LEN
    && ev.decode == if IsForward24Length(ev.capture.sampleCount) then Decoded(Found(EventWindow(ev), SNIFFED_BIT_LENGTHS))
                    else NotDecoded
  }

  predicate InSequence(s: Sniffer) {
    && |s.pushed| + (if s.held.Some? then 1 else 0) == s.seqNo
    && (s.held.Some? ==> s.held.value.ev.sniffSeq == s.seqNo)
    && (forall i | 0 <= i < |s.pushed| :: s.pushed[i].sniffSeq == i + 1 && Settled(s.pushed[i]))
    && (forall i | 0 <= i < |s.ring| :: s.ring[i].sniffSeq <= |s.pushed| && Settled(s.ring[i]))
    && (forall i, j | 0 <= i < j < |s.ring| :: s.ring[i].sniffSeq < s.ring[j].sniffSeq)
  }

  predicate SniffInv(c: Core) {
    && c.sniffer.overrun == 0 && InSequence(c.sniffer)
    && (c.sniffer.held.Some? ==>
          var h := c.sniffer.held.value;
          Underway(h) && (c.phy.state.Rx? ==> c.phy.rx.idle <= h.search.step))
  }

  // ---- Single parts ----

  lemma NeededIsFive(ev: RxEvent)
    requires |ev.capture.samples| == SAMPLE_BUF_LEN
    ensures 1 <= NeededFor(ev) <= 5
  {
  }

  /** One more phase: either the search is on its way, or it has found what a full run finds. */
  lemma PhaseStep(h: Held)
    requires Underway(h)
    ensures var (search, outcome) := SearchStep(h.search, EventWindow(h.ev));
            if h.search.step + 1 == NeededFor(h.ev) then
              outcome == Done(Found(EventWindow(h.ev), SNIFFED_BIT_LENGTHS))
            else
              outcome == Searching && Underway(h.(search := search)) && search.step == h.search.step + 1
  {
    hide Found, SearchStep, EventWindow, At, SearchAfter, StepsNeeded;
    SearchAdvances(EventWindow(h.ev), SNIFFED_BIT_LENGTHS, h.search.step);
  }

  lemma PushRingInSequence(s: Sniffer, ev: RxEvent)
    requires InSequence(s.(seqNo := |s.pushed|)) && s.held.None? && ev.sniffSeq == |s.pushed| + 1 && Settled(ev)
    ensures InSequence(PushRing(s.(seqNo := |s.pushed| + 1), ev))
  {
    hide Settled;
  }

  /** The step of the held capture. */
  lemma StepHeldSniffs(k: Core, answer: Option<u8>)
    requires HeldOk(k.sniffer) && k.sniffer.overrun == 0 && InSequence(k.sniffer)
    requires k.sniffer.held.Some? ==> Underway(k.sniffer.held.value)
    ensures var h := StepHeld(k, answer).sniffer;
            && h.overrun == 0 && InSequence(h)
            && (k.sniffer.held.Some? ==>
                  var was := k.sniffer.held.value;
                  if was.search.step + 1 == NeededFor(was.ev) then
                    && h.held.None?
                    && h.pushed == k.sniffer.pushed + [was.ev.(decode := Decoded(Found(EventWindow(was.ev), SNIFFED_BIT_LENGTHS)))]
                  else
                    && h.held.Some? && Underway(h.held.value) && h.held.value.ev == was.ev
                    && h.held.value.search.step == was.search.step + 1 && h.pushed == k.sniffer.pushed)
            && (k.sniffer.held.None? ==> h == k.sniffer)
  {
    hide SearchStep, Found, EventWindow, Stage, NeededFor;
    if k.sniffer.held.Some? {
      var was := k.sniffer.held.value;
      PhaseStep(was);
      if was.search.step + 1 == NeededFor(was.ev) {
        var ev := was.ev.(decode := Decoded(Found(EventWindow(was.ev), SNIFFED_BIT_LENGTHS)));
        SettledOf(was);
        PushRingInSequence(k.sniffer.(held := None, seqNo := |k.sniffer.pushed|), ev);
      }
    }
  }

  lemma SettledOf(h: Held)
    requires Underway(h)
    ensures Settled(h.ev.(decode := Decoded(Found(EventWindow(h.ev), SNIFFED_BIT_LENGTHS))))
  {
    hide Found, SearchAfter;
  }

  /** A capture that arrives with none held. */
  lemma PushSnifferSniffs(c: Core, ev: RxEvent)
    requires c.sniffer.overrun == 0 && InSequence(c.sniffer) && c.sniffer.held.None?
    requires |ev.capture.samples| == SAMPLE_BUF_LEN && ev.decode.NotDecoded? && c.phy.state.Idle?
    ensures SniffInv(PushSniffer(c, ev))
  {
    hide Found, PushRing, Underway, EventWindow;
    var s := c.sniffer;
    var e := ev.(sniffSeq := s.seqNo + 1);
    if IsForward24Length(ev.capture.sampleCount) {
      FreshSearch(NewlyHeld(e, c.clock));
    } else {
      PushRingInSequence(s, e);
      PushRingKeeps(s.(seqNo := s.seqNo + 1), e);
    }
  }

  lemma PushRingKeeps(s: Sniffer, ev: RxEvent)
    ensures PushRing(s, ev).overrun == s.overrun && PushRing(s, ev).held == s.held
  {
  }

  lemma FreshSearch(h: Held)
    requires |h.ev.capture.samples| == SAMPLE_BUF_LEN && h.ev.decode.NotDecoded?
    requires IsForward24Length(h.ev.capture.sampleCount) && h.search == NewSearch(SNIFFED_BIT_LENGTHS)
    ensures Underway(h)
  {
    hide EventWindow;
    NeededIsFive(h.ev);
  }

  lemma DrainSniffs(h: Core)
    requires h.sniffer.overrun == 0 && InSequence(h.sniffer)
    requires h.phy.rx.state.Completed? ==>
               h.sniffer.held.None? && |h.phy.rx.last.samples| == SAMPLE_BUF_LEN && h.phy.state.Idle?
    requires !h.phy.rx.state.Completed? ==> SniffInv(h)
    ensures SniffInv(DrainCompletedRx(h))
  {
    hide InSequence, Underway, PushSniffer, Tags;
    if h.phy.rx.state.Completed? {
      var p := TakeCompleted(h.phy).0;
      var c := h.(phy := p);
      var ev := RxEvent(h.phy.rx.last, c.clock.busEpoch, c.clock.now, 0, NotDecoded);
      var n := NoteForwardCapture(c);
      var fev := RxEvent(h.phy.rx.last, n.clock.busEpoch, n.clock.now, 0, NotDecoded);
      PushSnifferSniffs(CloseWindowWith(c, RxComplete(ev)), ev);
      PushSnifferSniffs(CloseWindowWith(AbortBatchTail(n), ForeignForward(fev.capture.preIdle, fev.capture.sampleCount)), fev);
    }
  }

  // ---- The tick ----

  /** No capture completes while one is held. */
  lemma NothingCompletesWhileHeld(c: Core, a: Core, s: Core, high: bool)
    requires Rest(c) && SniffInv(c) && c.sniffer.held.Some? && Armable(c) && a == ArmPending(c) && Rest(a)
    requires s.phy == Tick(a.phy, high)
    ensures !s.phy.rx.state.Completed?
    ensures s.phy.state.Rx? ==> s.phy.rx.idle <= c.sniffer.held.value.search.step + 1
  {
    hide Tick, Underway, InSequence;
    NeededIsFive(c.sniffer.held.value.ev);
    ArmedStillHears(c);
    if a.phy.busy {
      SendingTick(a.phy, high);
    } else {
      ListeningTick(a.phy, high);
    }
    StepBelowFive(c.sniffer.held.value);
  }

  lemma StepBelowFive(h: Held)
    requires Underway(h)
    ensures h.search.step < 5
  {
    NeededIsFive(h.ev);
  }

  /** Arming leaves a reception alone or ends it. */
  lemma ArmedStillHears(c: Core)
    requires Rest(c) && Armable(c)
    ensures var a := ArmPending(c); a.phy.state.Rx? ==> a.phy == c.phy
  {
    hide Tags, GateAt, ReceptionBeganInTheBackwardWindow, HeldOk, AllSendable;
    var k := ApplyRequestedCancel(c);
    if !k.phy.busy {
      ArmIdleHears(k);
    }
  }

  lemma ArmIdleHears(k: Core)
    requires Armable(k)
    ensures var a := ArmIdle(k); a.phy.state.Rx? ==> a.phy == k.phy
  {
    hide TryArm, ArmForward;
    TryArmHears(k);
    ArmForwardHears(TryArm(k).0);
  }

  lemma TryArmHears(k: Core)
    requires Armable(k)
    ensures var a := TryArm(k).0; (a.phy.state.Rx? ==> a.phy == k.phy) && a.demand == k.demand
  {
    hide GateAt, LineUnder;
  }

  /** What goes onto the wire ends a reception, and anything else leaves the line as it is. */
  lemma ArmForwardHears(c: Core)
    requires WellFormed(c.phy) && FramesFit(c.demand)
    ensures var a := ArmForward(c); a.phy.state.Rx? ==> a.phy == c.phy
  {
    hide PushEvent;
  }

  lemma TickSniffs(c: Core, high: bool, answer: Option<u8>)
    requires Rest(c) && SniffInv(c)
    ensures Ready(c) && SniffInv(IsrTick(c, high, answer))
  {
    hide ArmPending, Sample, Conclude, StepHeld, DrainCompletedRx, Tick, Rest, InSequence, Underway, NeededFor, Found;
    var a, s, k, h := Stages(c, high, answer);
    KeptSniffer(s, a.phy.busy);
    ArmKeepsSniffer(c);
    ArmReady(c);
    StepHeldSniffs(k, answer);
    if c.sniffer.held.Some? {
      NothingCompletesWhileHeld(c, a, s, high);
    } else {
      CompletesIdle(a, high);
    }
    DrainSniffs(h);
  }

  lemma KeptSniffer(s: Core, wasBusy: bool)
    ensures Conclude(s, wasBusy).sniffer == s.sniffer
  {
  }

  lemma ArmKeepsSniffer(c: Core)
    requires Rest(c)
    ensures Armable(c) && ArmPending(c).sniffer == c.sniffer
  {
    ArmReady(c);
  }

  lemma CompletesIdle(a: Core, high: bool)
    requires Rest(a)
    ensures var q := Tick(a.phy, high); q.rx.state.Completed? ==> q.state.Idle?
  {
    hide Tick;
    if a.phy.busy {
      SendingTick(a.phy, high);
    } else {
      ListeningTick(a.phy, high);
    }
  }

  /** A held capture advances by one phase every tick, whatever the line does, and is out after the last one. */
  lemma HeldAdvances(c: Core, high: bool, answer: Option<u8>)
    requires Rest(c) && SniffInv(c) && c.sniffer.held.Some?
    ensures Ready(c) && NeededFor(c.sniffer.held.value.ev) <= 5
    ensures var was, now := c.sniffer.held.value, IsrTick(c, high, answer).sniffer;
            if was.search.step + 1 == NeededFor(was.ev) then
              && now.held.None?
              && now.pushed == c.sniffer.pushed + [was.ev.(decode := Decoded(Found(EventWindow(was.ev), SNIFFED_BIT_LENGTHS)))]
            else
              && now.held.Some? && now.held.value.ev == was.ev && now.pushed == c.sniffer.pushed
              && now.held.value.search.step == was.search.step + 1
  {
    hide ArmPending, Sample, Conclude, StepHeld, DrainCompletedRx, Tick, Rest, InSequence, NeededFor, Found, EventWindow;
    var a, s, k, h := Stages(c, high, answer);
    KeptSniffer(s, a.phy.busy);
    ArmKeepsSniffer(c);
    StepHeldSniffs(k, answer);
    NothingCompletesWhileHeld(c, a, s, high);
    NothingToDrain(h);
    NeededIsFive(c.sniffer.held.value.ev);
  }

  lemma NothingToDrain(h: Core)
    requires !h.phy.rx.state.Completed?
    ensures DrainCompletedRx(h) == h
  {
  }

  // ---- Runs ----

  lemma StepSniffs(c: Core, a: Action)
    requires Rest(c) && SniffInv(c)
    ensures Ready(c) && SniffInv(Step(c, a))
  {
    hide IsrTick, PopSessionEventFor, Underway, Settled;
    RestIsReady(c);
    match a
    case TickWith(high, answer) =>
      TickSniffs(c, high, answer);
    case PopEvent(e) =>
      PopKeeps(c, e);
    case _ =>
  }

  /** In every run nothing is overrun, and captures come out in sequence, each searched to completion. */
  lemma {:induction false} RunSniffs(c: Core, run: seq<Action>)
    requires Rest(c) && SniffInv(c)
    ensures SniffInv(Exec(c, run))
    decreases |run|
  {
    hide Step, SniffInv, Rest;
    if run != [] {
      StepRests(c, run[0]);
      StepSniffs(c, run[0]);
      RunSniffs(Step(c, run[0]), run[1..]);
    }
  }

  /** From power-up on. */
  lemma NeverOverrun(run: seq<Action>)
    ensures Rest(NewCore()) && SniffInv(Exec(NewCore(), run))
  {
    hide Exec;
    NewCoreRests();
    RunSniffs(NewCore(), run);
  }
}
