/**
 All that is known of the interrupt core between two calls, from power-up on (isr.rs): what the
 object promises after every one of them.
 */
module IsrInvariant {
  import opened Isr
  import opened IsrBase
  import opened IsrSniffer
  import opened IsrLedger
  import opened IsrAnswers
  import opened IsrTiming
  import opened IsrWindows
  import opened IsrOrder
  import opened IsrLine
  import opened IsrSession

  /**
   Every request is in one place, batched ones are in order, captures come out in order and fully
   searched, answers keep their slot on the wire and give way to other frames, and every window's
   one event carries its own exchange.
   */
  ghost predicate Lasting(c: Core) {
    && Rest(c) && LedgerInv(c) && SniffInv(c) && AnswerInv(c) && TimingInv(c) && Windowed(c)
    && OrderInv(c.demand, c.ledger) && LastArmed(c) && HearInv(c) && SessionInv(c)
  }

  lemma StepLasts(c: Core, a: Action)
    requires Lasting(c)
    ensures Ready(c) && Lasting(Step(c, a))
  {
    hide Step, Rest, LedgerInv, SniffInv, AnswerInv, TimingInv, Windowed, OrderInv, LastArmed, HearInv, SessionInv;
    StepRests(c, a);
    StepBooks(c, a);
    StepSniffs(c, a);
    StepAnswers(c, a);
    StepTiming(c, a);
    StepWindows(c, a);
    StepOrder(c, a);
    StepHears(c, a);
    StepNotes(c, a);
  }

  lemma NewLasts()
    ensures Lasting(NewCore())
  {
    hide TimingInv, AnswerInv, HearInv;
    NewBooks();
    NewTiming();
    NewHears();
  }

  lemma {:induction false} RunLasts(c: Core, run: seq<Action>)
    requires Rest(c) && Lasting(c)
    ensures Lasting(Exec(c, run))
    decreases |run|
  {
    hide Step, Rest, Lasting;
    if run != [] {
      StepRests(c, run[0]);
      StepLasts(c, run[0]);
      RunLasts(Step(c, run[0]), run[1..]);
    }
  }
}
