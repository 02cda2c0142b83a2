/** What one tick of the transceiver can do, as the interrupt sees it (fsm.rs). */
module PhySteps {
  import opened HalfBits
  import opened Fsm

  /** Nothing is left to be polled. */
  predicate Clear(p: Phy) {
    !p.tx.yielded && p.tx.collision == 0
  }

  /** The transceiver between its ticks, as long as nobody sets another collision policy. */
  predicate Sound(p: Phy) {
    && WellFormed(p) && p.policy.Auto?
    && (p.busy <==> p.state.Tx? || p.state.CollisionTx?)
    && (p.state.Rx? <==> p.rx.state.Receiving?) && (!p.busy ==> p.out)
    && (p.state.Tx? ==> Clear(p) && Sendable(p.tx.frame) && (p.tx.armed != 0 ==> p.tx.count == 0))
    && (p.state.CollisionTx? ==> !p.tx.yielded && p.tx.collision > 0 && Sendable(p.tx.frame)
                                 && p.tx.frame.length != BACKWARD_FRAME_HALF_BITS)
  }

  /** How a transmission ends. */
  predicate GivenUp(p: Phy, q: Phy) {
    p.state.Tx? && p.tx.armed != 0 && !p.tx.answer && q.tx == p.tx.(yielded := true, armed := 0)
  }

  predicate SentOut(p: Phy, q: Phy) {
    p.state.Tx? && p.tx.armed == 0 && p.tx.count >= p.tx.frame.length && q.tx == p.tx
  }

  predicate Broken(p: Phy, q: Phy) {
    p.state.CollisionTx? && !q.tx.yielded && q.tx.collision == p.tx.collision
  }

  /** Listening: a tick changes the receiving half only, and completes a capture only after 16 recessive ticks. */
  lemma ListeningTick(p: Phy, high: bool)
    requires Sound(p) && !p.busy
    ensures var q := Tick(p, high);
            && Sound(q) && !q.busy && q.tx == p.tx
            && (q.rx.state.Completed? ==> p.rx.state.Completed? || (p.state.Rx? && high && p.rx.idle >= RX_IDLE_LINE_HIGH_TICKS - 1))
            && (q.state.Rx? ==> q.rx.idle <= if p.state.Rx? then p.rx.idle + 1 else 0)
            && (q.rx.state.Completed? && !p.rx.state.Completed? ==> |q.rx.last.samples| == SAMPLE_BUF_LEN)
  {
    hide Record, Finish, ReplayLow;
    var c := CountRuns(p, high);
    if c.state.Idle? && !high {
      var e := c.(debounce := SatAdd(c.debounce, 0xFF));
      if e.debounce >= RX_START_DEBOUNCE_TICKS {
        ReplayReceives(EnterRx(e), e.debounce);
      }
    } else if c.state.Rx? {
      RecordIdle(c.rx, high);
      FinishSize(Record(c.rx, high));
    }
  }

  lemma RecordIdle(rx: Receiver, high: bool)
    requires |rx.data| == SAMPLE_BUF_LEN
    ensures var r := Record(rx, high);
            r.state == rx.state && r.idle <= rx.idle + 1 && (!high ==> r.idle == 0)
  {
  }

  lemma FinishSize(rx: Receiver)
    requires |rx.data| == SAMPLE_BUF_LEN
    ensures Finish(rx).state.Completed? && |Finish(rx).last.samples| == SAMPLE_BUF_LEN
  {
  }

  lemma {:induction false} ReplayReceives(p: Phy, ticks: nat)
    requires WellFormed(p) && p.rx.idle == 0
    ensures var q := ReplayLow(p, ticks); q == p.(rx := q.rx) && q.rx.state == p.rx.state && q.rx.idle == 0
    decreases ticks
  {
    hide Record;
    if ticks > 0 {
      RecordIdle(p.rx, false);
      ReplayReceives(TickRx(p, false), ticks - 1);
    }
  }

  /** Sending: it goes on, breaks on a collision, or ends in one of three ways. */
  lemma SendingTick(p: Phy, high: bool)
    requires Sound(p) && p.busy
    ensures var q := Tick(p, high);
            && Sound(q) && q.rx == p.rx
            && q.tx.frame == p.tx.frame && q.tx.answer == p.tx.answer && q.tx.preIdle == p.tx.preIdle
            && (q.busy && p.state.Tx? && p.tx.count >= p.tx.frame.length && p.tx.armed == 0 ==> false)
            && (!q.busy ==> q.state.Idle? && (GivenUp(p, q) || SentOut(p, q) || Broken(p, q)))
            && (q.state.CollisionTx? ==> p.tx.frame.length != BACKWARD_FRAME_HALF_BITS && (p.state.Tx? ==> p.tx.count < p.tx.frame.length))
            && (p.state.CollisionTx? ==> !q.state.Tx?)
  {
    hide Record, Finish, ReplayLow, Dominant;
    var c := CountRuns(p, high);
    if c.state.Tx? && c.tx.armed == 0 && c.tx.count < c.tx.frame.length {
      assert c.tx.count / 8 < DATA_LEN;
    }
  }

  // ---- The edge of a frame ----

  /** While a frame is received, the recessive run is the one the receiver counts. */
  predicate RunsAgree(p: Phy) {
    p.state.Rx? ==> p.highRun == p.rx.idle < RX_IDLE_LINE_HIGH_TICKS
  }

  /** A capture completes exactly sixteen recessive samples after the last dominant one. */
  lemma CompletesSixteenAfter(p: Phy, high: bool)
    requires Sound(p) && RunsAgree(p) && !p.rx.state.Completed?
    ensures var q := Tick(p, high);
            RunsAgree(q) && (q.rx.state.Completed? ==> q.idleCount == q.highRun == RX_IDLE_LINE_HIGH_TICKS)
  {
    hide Finish, ReplayLow, Dominant;
    var c := CountRuns(p, high);
    if c.state.Idle? && !high {
      var e := c.(debounce := SatAdd(c.debounce, 0xFF));
      if e.debounce >= RX_START_DEBOUNCE_TICKS {
        ReplayReceives(EnterRx(e), e.debounce);
      }
    }
  }
}
