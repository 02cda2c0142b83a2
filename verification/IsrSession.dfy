/**
 Exchanges (isr.rs): their ids, the events tasks take out, and what closing a window tells about a
 reception under way.
 */
module IsrSession {
  import opened Wrappers
  import opened Fsm
  import opened PhaseSearch
  import opened RxDecode
  import opened PhySteps
  import opened Isr
  import opened IsrBase
  import opened IsrSniffer
  import opened IsrAnswers
  import opened IsrTiming
  import opened IsrLine

  // ---- Ids ----

  /** The id handed out by the `n`th call from now on. */
  function IdAfter(id: nat, n: nat): nat {
    if n == 0 then id else NextExchange(IdAfter(id, n - 1))
  }

  lemma {:induction false} IdsCount(id: nat, n: nat)
    requires id < EXCHANGE_LIMIT
    ensures IdAfter(id, n) == if n == 0 then id else (id + n - 1) % (EXCHANGE_LIMIT - 1) + 1
    decreases n
  {
    if n > 0 {
      IdsCount(id, n - 1);
      if n > 1 {
        Wraps(id + n - 2);
      } else {
        Wraps(id);
      }
    }
  }

  lemma Wraps(x: nat)
    ensures (x + 1) % (EXCHANGE_LIMIT - 1)
         == if x % (EXCHANGE_LIMIT - 1) == EXCHANGE_LIMIT - 2 then 0 else x % (EXCHANGE_LIMIT - 1) + 1
    ensures x < EXCHANGE_LIMIT - 1 ==> x % (EXCHANGE_LIMIT - 1) == x
    ensures x == EXCHANGE_LIMIT - 1 ==> x % (EXCHANGE_LIMIT - 1) == 0
  {
    var m, q := EXCHANGE_LIMIT - 1, x / (EXCHANGE_LIMIT - 1);
    assert x == q * m + x % m;
    if x % m == m - 1 {
      assert x + 1 == (q + 1) * m;
    } else {
      assert x + 1 == q * m + (x % m + 1);
    }
  }

  /** No id is zero, and none comes again before all others have. */
  lemma IdsAreDistinct(id: nat, i: nat, j: nat)
    requires id < EXCHANGE_LIMIT && 1 <= i < j < i + EXCHANGE_LIMIT - 1
    ensures 0 < IdAfter(id, i) < EXCHANGE_LIMIT && IdAfter(id, i) != IdAfter(id, j)
  {
    hide IdAfter;
    IdsCount(id, i);
    IdsCount(id, j);
    Apart(id + i - 1, j - i);
  }

  lemma Apart(x: nat, d: nat)
    requires 0 < d < EXCHANGE_LIMIT - 1
    ensures x % (EXCHANGE_LIMIT - 1) != (x + d) % (EXCHANGE_LIMIT - 1)
  {
    var m := EXCHANGE_LIMIT - 1;
    assert x + d == x / m * m + (x % m + d);
    assert (x + d) % m == if x % m + d < m then x % m + d else x % m + d - m;
  }

  // ---- Events ----

  /** Where the first event of an exchange is, if there is one. */
  predicate FirstOf(ring: seq<(nat, SessionEvent)>, exchange: nat, k: int) {
    0 <= k < |ring| && ring[k].0 == exchange && forall j | 0 <= j < k :: ring[j].0 != exchange
  }

  /** The first event of the exchange is taken out, with those of others before it; when there is none, all are. */
  lemma {:induction false} PopTakesTheFirst(c: Core, exchange: nat)
    ensures var (r, event) := PopSessionEventFor(c, exchange);
            match event
            case Some(e) =>
              exists k :: FirstOf(c.outbox.ring, exchange, k) && e == c.outbox.ring[k].1 && r.outbox.ring == c.outbox.ring[k + 1..]
            case None => r.outbox.ring == [] && forall k | 0 <= k < |c.outbox.ring| :: c.outbox.ring[k].0 != exchange
    decreases |c.outbox.ring|
  {
    var ring := c.outbox.ring;
    if ring != [] {
      var next := c.(outbox := c.outbox.(ring := ring[1..], taken := c.outbox.taken + 1));
      if ring[0].0 == exchange {
        assert FirstOf(ring, exchange, 0);
      } else {
        PopTakesTheFirst(next, exchange);
        var (r, event) := PopSessionEventFor(next, exchange);
        if event.Some? {
          var k :| FirstOf(ring[1..], exchange, k) && event.value == ring[1..][k].1 && r.outbox.ring == ring[1..][k + 1..];
          assert FirstOf(ring, exchange, k + 1) by {
            forall j | 0 <= j < k + 1 ensures ring[j].0 != exchange {
              assert j > 0 ==> ring[j] == ring[1..][j - 1];
            }
          }
          assert ring[1..][k + 1..] == ring[k + 2..];
        } else {
          forall k | 0 <= k < |ring| ensures ring[k].0 != exchange {
            assert k > 0 ==> ring[k] == ring[1..][k - 1];
          }
        }
      }
    }
  }

  // ---- Captures ----

  /** What a window is told of a capture. */
  predicate TellsOf(e: SessionEvent, capture: Capture) {
    if LengthClass(capture.sampleCount).Backward? then e.RxComplete? && e.ev.capture == capture
    else e == ForeignForward(capture.preIdle, capture.sampleCount)
  }

  /** The capture is the newest the sniffer has. */
  predicate Sniffs(s: Sniffer, capture: Capture) {
    if s.held.Some? then s.held.value.ev.capture == capture
    else s.pushed != [] && s.pushed[|s.pushed| - 1].capture == capture
  }

  /**
   A capture the transceiver completes is handed on in the same tick: to the open window, which it
   closes, and to the sniffer unless it is of backward length and a window took it.
   */
  lemma CaptureIsHandedOn(c: Core, high: bool, answer: Option<u8>)
    requires Rest(c) && SniffInv(c)
    ensures Ready(c)
    ensures var a, r := ArmPending(c), IsrTick(c, high, answer);
            var rx := Tick(a.phy, high).rx;
            rx.state.Completed? ==>
              && r.session.window == 0
              && (a.session.window != 0 ==>
                    && r.outbox.log != [] && r.outbox.log[|r.outbox.log| - 1].0 == a.session.window
                    && TellsOf(r.outbox.log[|r.outbox.log| - 1].1, rx.last))
              && (a.session.window == 0 || LengthClass(rx.last.sampleCount).Forward? ==> Sniffs(r.sniffer, rx.last))
  {
    hide ArmPending, Sample, StepHeld, DrainCompletedRx, Tick, Rest, Base, InSequence, Underway, TellsOf, Sniffs;
    var a, s, k, h := Stages(c, high, answer);
    if s.phy.rx.state.Completed? {
      ArmKeepsSniffer(c);
      KeptSniffer(s, a.phy.busy);
      if c.sniffer.held.Some? {
        NothingCompletesWhileHeld(c, a, s, high);
      }
      NothingHeld(k, answer);
      DrainHandsOn(h);
    }
  }

  lemma NothingHeld(k: Core, answer: Option<u8>)
    requires HeldOk(k.sniffer)
    ensures k.sniffer.held.None? ==> StepHeld(k, answer) == k
  {
    hide SearchStep;
  }

  lemma DrainHandsOn(h: Core)
    requires h.phy.rx.state.Completed? && h.sniffer.held.None?
    ensures var r, capture := DrainCompletedRx(h), h.phy.rx.last;
            && r.session.window == 0
            && (h.session.window != 0 ==>
                  && r.outbox.log != [] && r.outbox.log[|r.outbox.log| - 1].0 == h.session.window
                  && TellsOf(r.outbox.log[|r.outbox.log| - 1].1, capture))
            && (h.session.window == 0 || LengthClass(capture.sampleCount).Forward? ==> Sniffs(r.sniffer, capture))
  {
    hide CloseWindowWith, AbortBatchTail, PushSniffer, TellsOf, Sniffs;
    var c := h.(phy := TakeCompleted(h.phy).0);
    var n := NoteForwardCapture(c);
    var back := RxEvent(h.phy.rx.last, c.clock.busEpoch, c.clock.now, 0, NotDecoded);
    WindowIsTold(c, RxComplete(back));
    SnifferGets(CloseWindowWith(c, RxComplete(back)), back);
    BackwardTells(back);
    var ev := RxEvent(h.phy.rx.last, n.clock.busEpoch, n.clock.now, 0, NotDecoded);
    var foreign := ForeignForward(ev.capture.preIdle, ev.capture.sampleCount);
    AbortKeepsWindow(n);
    WindowIsTold(AbortBatchTail(n), foreign);
    SnifferGets(CloseWindowWith(AbortBatchTail(n), foreign), ev);
    ForwardTells(ev.capture);
  }

  lemma BackwardTells(ev: RxEvent)
    ensures LengthClass(ev.capture.sampleCount).Backward? ==> TellsOf(RxComplete(ev), ev.capture)
  {
  }

  lemma ForwardTells(capture: Capture)
    ensures LengthClass(capture.sampleCount).Forward? ==>
              TellsOf(ForeignForward(capture.preIdle, capture.sampleCount), capture)
  {
  }

  lemma WindowIsTold(c: Core, event: SessionEvent)
    ensures var r := CloseWindowWith(c, event);
            && r.session.window == 0 && r.sniffer == c.sniffer
            && (c.session.window != 0 ==>
                  r.outbox.log != [] && r.outbox.log[|r.outbox.log| - 1] == (c.session.window, event))
  {
  }

  lemma SnifferGets(c: Core, ev: RxEvent)
    requires c.sniffer.held.None?
    ensures var r := PushSniffer(c, ev); r == c.(sniffer := r.sniffer) && Sniffs(r.sniffer, ev.capture)
  {
  }

  lemma AbortKeepsWindow(c: Core)
    ensures AbortBatchTail(c).session == c.session && AbortBatchTail(c).sniffer == c.sniffer
  {
    hide Tags, PushEvent;
  }

  // ---- Receptions in a window ----

  /** What is noted of a reception in the window. */
  predicate Noted(c: Core) {
    if c.session.window == 0 then c.session.rxStarted == 0
    else
      && !c.phy.busy
      && (c.phy.state.Rx? || c.phy.rx.state.Completed? <==> c.session.rxStarted != 0)
      && (c.phy.state.Rx? ==> c.session.rxStarted == 1 + c.phy.rx.preIdle)
  }

  /** No window is open while an answer may still be due. */
  predicate NoWindow(c: Core) {
    && (c.staged.Some? && Untouched(c, c.staged.value.captured, c.staged.value.sent) ==> c.session.window == 0)
    && (c.sniffer.held.Some? && Untouched(c, c.sniffer.held.value.captured, c.sniffer.held.value.sent) ==> c.session.window == 0)
  }

  predicate SessionInv(c: Core) {
    Noted(c) && NoWindow(c)
  }

  lemma CancelNotes(c: Core)
    requires SessionInv(c)
    ensures SessionInv(ApplyRequestedCancel(c))
  {
    hide Tags;
  }

  lemma TryArmNotes(c: Core)
    requires Rest(c) && !c.phy.busy && AnswerInv(c) && SessionInv(c) && HearInv(c)
    ensures SessionInv(TryArm(c).0)
  {
    hide Sound, HeldOk, AllSendable, ReceptionBeganInTheBackwardWindow, StagedHears, HeldHears, LowOnWire, Sheltered, HeldSince;
    if c.staged.Some? && c.staged.value.epoch == c.clock.busEpoch {
      EpochsAgree(c);
      LineUnderStarts(c);
    }
  }

  lemma ArmForwardNotes(c: Core)
    requires Rest(c) && c.phy.state.Idle? && c.session.window == 0 && c.staged.None? && SessionInv(c)
    ensures Armable(c) && SessionInv(ArmForward(c))
  {
    hide ArmForward, HeldOk, AllSendable, TakeUp;
    ArmReady(c);
    ArmForwardBase(c);
  }

  lemma ArmPendingNotes(c: Core)
    requires Rest(c) && AnswerInv(c) && TimingInv(c) && HearInv(c) && SessionInv(c)
    ensures Armable(c) && SessionInv(ArmPending(c))
  {
    hide Rest, ApplyRequestedCancel, TryArm, ArmForward, AnswerInv, TimingInv, HearInv, SessionInv;
    ArmReady(c);
    CancelBase(c);
    CancelAnswers(c);
    CancelHears(c);
    CancelNotes(c);
    var k := ApplyRequestedCancel(c);
    ArmReady(k);
    if !k.phy.busy {
      TryArmBase(k);
      TryArmNotes(k);
      var (a, tried) := TryArm(k);
      if tried.NotStaged? && a.session.window == 0 && a.phy.state.Idle? && !LineDebouncing(a.phy) {
        ArmForwardNotes(a);
      }
    }
  }

  /** A reception in the window is noted with the silence before it. */
  lemma SampleNotes(a: Core, s: Core, high: bool, before: RxState)
    requires Rest(a) && Noted(a) && s == Sample(a, high, before)
    ensures Noted(s)
  {
    hide Tick, Sendable, HeldOk, AllSendable;
    if a.phy.busy {
      SendingTick(a.phy, high);
    } else {
      ListeningTick(a.phy, high);
      ListeningKeepsSilence(a.phy, high);
    }
  }

  /** A reception ends only with a capture. */
  lemma ListeningKeepsSilence(p: Phy, high: bool)
    requires Sound(p) && !p.busy
    ensures p.state.Rx? ==> Tick(p, high).state.Rx? || Tick(p, high).rx.state.Completed?
  {
    hide ReplayLow;
    RecordIdle(CountRuns(p, high).rx, high);
  }

  lemma ConcludeNotes(a: Core, s: Core, high: bool, before: RxState)
    requires Rest(a) && ArmedInv(a) && OneAnswer(a) && SessionInv(a) && s == Sample(a, high, before)
    requires Sampled(a, s) && s.phy == Tick(a.phy, high)
    ensures SessionInv(Conclude(s, a.phy.busy))
  {
    hide Rest, Sample, Tick, Conclude, Untouched, Since, EpochInv, TallyInv, Noted;
    var k := Conclude(s, a.phy.busy);
    SampleNotes(a, s, high, before);
    WindowAfter(a, s, high);
    if a.staged.Some? && Untouched(k, a.staged.value.captured, a.staged.value.sent) {
      UntouchedBefore(a, s, high, a.staged.value.captured, a.staged.value.sent, if a.phy.busy then 5 else 0);
    }
    if a.sniffer.held.Some? && Untouched(k, a.sniffer.held.value.captured, a.sniffer.held.value.sent) {
      UntouchedBefore(a, s, high, a.sniffer.held.value.captured, a.sniffer.held.value.sent,
                      a.sniffer.held.value.search.step + 1);
    }
  }

  /** Only a frame that has been driven out opens a window. */
  lemma WindowAfter(a: Core, s: Core, high: bool)
    requires Rest(a) && Noted(s) && Sampled(a, s) && s.phy == Tick(a.phy, high)
    ensures var k := Conclude(s, a.phy.busy);
            && Noted(k) && k.staged == a.staged && k.sniffer == a.sniffer
            && (!a.phy.busy || InLead(a.phy) ==> k.session.window == 0 || k.session.window == a.session.window)
            && (k.session.isAnswer ==> a.session.isAnswer)
  {
    hide Tick, Sendable, HeldOk, AllSendable, Tags, PollTx, PushEvent;
    if a.phy.busy {
      SendingTick(a.phy, high);
      if !s.phy.busy {
        PollEnds(a, s);
        CompletionTiming(a, s);
      }
    } else {
      ListeningTick(a.phy, high);
    }
  }

  lemma StepHeldNotes(k: Core, answer: Option<u8>)
    requires HeldOk(k.sniffer) && SessionInv(k)
    ensures SessionInv(StepHeld(k, answer))
  {
    hide SearchStep, EventWindow, EncodedFrame;
  }

  lemma RingKeepsHeld(s: Sniffer)
    ensures forall ev: RxEvent :: PushRing(s, ev).held == s.held
  {
  }

  lemma DrainNotes(h: Core)
    requires SessionInv(h)
    requires h.phy.rx.state.Completed? ==> h.phy.state.Idle? && !h.phy.busy && h.sniffer.held.None?
    ensures SessionInv(DrainCompletedRx(h))
  {
    hide Tags, PushEvent, PushRing;
    if h.phy.rx.state.Completed? {
      RingKeepsHeld(h.sniffer);
      RingKeepsHeld(h.sniffer.(seqNo := h.sniffer.seqNo + 1));
    }
  }

  lemma TickNotes(c: Core, high: bool, answer: Option<u8>)
    requires Rest(c) && SniffInv(c) && AnswerInv(c) && TimingInv(c) && HearInv(c) && SessionInv(c)
    ensures Ready(c) && SessionInv(IsrTick(c, high, answer))
  {
    hide ArmPending, Sample, Conclude, StepHeld, DrainCompletedRx, Tick, Rest, Base, InSequence, Underway, TimingInv;
    hide EpochInv, TallyInv, Since, AnswerInv, Noted, Untouched, StagedHears, HeldHears, LowOnWire, Sheltered;
    var a, s, k, h := Stages(c, high, answer);
    ArmPendingNotes(c);
    ArmPendingAnswers(c);
    ArmPendingTiming(c);
    ArmPendingHears(c);
    TimingLines(a);
    StampsStart(c, a, s, high);
    ConcludeHears(a, s, high);
    ConcludeNotes(a, s, high, c.phy.rx.state);
    StepHeldNotes(k, answer);
    HeardWhileFree(c, high, answer, a, s, k, h);
    DrainNotes(h);
  }

  lemma StepNotes(c: Core, a: Action)
    requires Rest(c) && SniffInv(c) && AnswerInv(c) && TimingInv(c) && HearInv(c) && SessionInv(c)
    ensures Ready(c) && SessionInv(Step(c, a))
  {
    hide IsrTick, PopSessionEventFor, AnswerInv, SniffInv, TimingInv, HearInv;
    RestIsReady(c);
    match a
    case TickWith(high, answer) =>
      TickNotes(c, high, answer);
    case PopEvent(e) =>
      PopKeeps(c, e);
    case _ =>
  }

  lemma {:induction false} RunNotes(c: Core, run: seq<Action>)
    requires Rest(c) && SniffInv(c) && AnswerInv(c) && TimingInv(c) && HearInv(c) && SessionInv(c)
    ensures SessionInv(Exec(c, run))
    decreases |run|
  {
    hide Step, SniffInv, Rest, AnswerInv, TimingInv, HearInv, SessionInv;
    if run != [] {
      StepRests(c, run[0]);
      StepSniffs(c, run[0]);
      StepAnswers(c, run[0]);
      StepTiming(c, run[0]);
      StepHears(c, run[0]);
      StepNotes(c, run[0]);
      RunNotes(Step(c, run[0]), run[1..]);
    }
  }

  /**
   After any run, closing the window closes that of the current exchange and no other, and tells of
   a reception, with the silence before it, exactly when the window is that exchange's and a
   reception is under way.
   */
  lemma ClosingTellsOfReception(run: seq<Action>, silence: nat)
    ensures Rest(NewCore())
    ensures var c := Exec(NewCore(), run);
            var (r, started) := CloseBackwardWindow(c);
            && r.session.window == (if c.session.window == c.session.exchangeEpoch then 0 else c.session.window)
            && (started == Some(silence) <==>
                  && c.session.window == c.session.exchangeEpoch != 0 && c.phy.state.Rx? && silence == c.phy.rx.preIdle)
  {
    hide Exec, SniffInv, AnswerInv, TimingInv, HearInv;
    NewTiming();
    NewHears();
    RunNotes(NewCore(), run);
  }
}
