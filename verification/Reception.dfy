/**
 What the receiver publishes of an arbitrary line (fsm.rs), against a listener that simply
 remembers levels.
 */
module Reception {
  import opened Bits
  import opened Fsm

  // ---- The reference: a listener ----

  function TrailingHigh(l: seq<bool>): nat {
    if l == [] || !l[|l| - 1] then 0 else 1 + TrailingHigh(l[..|l| - 1])
  }

  /** A listener counts dominant ticks, remembers levels, or has just heard a whole frame. */
  datatype Ear = Quiet(low: nat) | Hearing(levels: seq<bool>) | Heard(levels: seq<bool>)

  /** Two dominant ticks in a row start a frame. */
  function Notice(low: nat, high: bool): Ear {
    if high then Quiet(0)
    else if low + 1 >= RX_START_DEBOUNCE_TICKS then Hearing([false, false])
    else Quiet(low + 1)
  }

  function Listen(e: Ear, high: bool): Ear {
    match e
    case Hearing(l) => if TrailingHigh(l + [high]) >= RX_IDLE_LINE_HIGH_TICKS then Heard(l + [high]) else Hearing(l + [high])
    case Quiet(low) => Notice(low, high)
    case Heard(_) => Notice(0, high)
  }

  function ListenTo(line: seq<bool>): Ear {
    if line == [] then Quiet(0) else Listen(ListenTo(line[..|line| - 1]), line[|line| - 1])
  }

  // ---- The refinement ----

  function Min(a: nat, b: nat): nat {
    if a < b then a else b
  }

  /** The bytes a capture of these levels has room for, short of the closing one. */
  function FullBytes(l: seq<bool>): nat {
    Min(|l| / 8, MAX_RX_IDX)
  }

  /** The sample bytes hold the levels from the start. */
  predicate Records(data: seq<bv8>, l: seq<bool>) {
    && |data| == SAMPLE_BUF_LEN
    && forall m | 0 <= m < 8 * FullBytes(l) :: LevelAt(data, m) == l[m]
  }

  /** A published capture: the levels byte by byte, closed by one recessive byte. */
  predicate Publishes(c: Capture, l: seq<bool>) {
    && c.sampleCount == FullBytes(l) + 1
    && Records(c.samples, l)
    && forall m | 8 * FullBytes(l) <= m < 8 * c.sampleCount :: LevelAt(c.samples, m)
  }

  predicate Receives(rx: Receiver, l: seq<bool>) {
    && rx.state.Receiving? && Records(rx.data, l) && rx.pos == FullBytes(l)
    && rx.byte == Folded(l) && rx.bitCount == |l| % 8 && rx.idle == TrailingHigh(l)
  }

  predicate Simulates(e: Ear, p: Phy) {
    WellFormed(p) &&
    match e
    case Quiet(low) => p.state.Idle? && p.debounce == low < RX_START_DEBOUNCE_TICKS
    case Hearing(l) => p.state.Rx? && Receives(p.rx, l) && TrailingHigh(l) < RX_IDLE_LINE_HIGH_TICKS && |l| >= 2
    case Heard(l) => p.state.Idle? && p.debounce == 0 && p.rx.state.Completed? && Publishes(p.rx.last, l)
                     && TrailingHigh(l) == RX_IDLE_LINE_HIGH_TICKS
  }

  /** The eight last levels make the byte that is stored. */
  lemma StoreRecords(data: seq<bv8>, l: seq<bool>, at: nat)
    requires |l| > 0 && |l| % 8 == 0 && Records(data, l[..|l| - 1])
    requires at == Min(FullBytes(l[..|l| - 1]), MAX_RX_IDX)
    ensures Records(data[at := Folded(l)], l)
  {
    hide LevelAt, Folded;
    var d, before := data[at := Folded(l)], l[..|l| - 1];
    BytesGrow(|l|);
    forall m | 0 <= m < 8 * FullBytes(l) ensures LevelAt(d, m) == l[m] {
      if m < 8 * at {
        KeptLevel(data, at, Folded(l), m);
        assert LevelAt(data, m) == before[m];
      } else {
        LastByte(data, l, at, m);
      }
    }
  }

  /** With its last level a byte is full; the buffer may be, too, and then nothing more is kept. */
  lemma BytesGrow(n: nat)
    requires n > 0 && n % 8 == 0
    ensures (n - 1) / 8 == n / 8 - 1
  {
  }

  lemma KeptLevel(data: seq<bv8>, at: nat, b: bv8, m: nat)
    requires at < |data| && m < 8 * at
    ensures LevelAt(data[at := b], m) == LevelAt(data, m)
  {
    hide Bit;
    assert m / 8 < at;
  }

  lemma LastByte(data: seq<bv8>, l: seq<bool>, at: nat, m: nat)
    requires at < |data| && |l| == 8 * at + 8 && 8 * at <= m < 8 * at + 8
    ensures LevelAt(data[at := Folded(l)], m) == l[m]
  {
    hide Bit, Folded;
    assert m / 8 == at && m % 8 == m - 8 * at;
    FoldedBits(l, m % 8);
  }

  lemma TrailingHighBound(l: seq<bool>)
    ensures TrailingHigh(l) <= |l|
    ensures forall k | |l| - TrailingHigh(l) <= k < |l| :: l[k]
  {
  }

  lemma RecordsPartial(data: seq<bv8>, l: seq<bool>, high: bool)
    requires Records(data, l) && |l + [high]| % 8 != 0
    ensures Records(data, l + [high]) && FullBytes(l + [high]) == FullBytes(l)
  {
    hide Bit;
    assert |l + [high]| / 8 == |l| / 8;
    forall m | 0 <= m < 8 * FullBytes(l) ensures LevelAt(data, m) == (l + [high])[m] {
      assert LevelAt(data, m) == l[m];
    }
  }

  lemma Grown(l: seq<bool>, high: bool)
    ensures Folded(l + [high]) == ShiftIn(Folded(l), high)
    ensures TrailingHigh(l + [high]) == if high then TrailingHigh(l) + 1 else 0
  {
    hide ShiftIn;
    assert (l + [high])[..|l|] == l;
  }

  lemma RecordStep(rx: Receiver, l: seq<bool>, high: bool)
    requires Receives(rx, l) && TrailingHigh(l) < RX_IDLE_LINE_HIGH_TICKS
    ensures Receives(Record(rx, high), l + [high])
  {
    hide ShiftIn, Records, Folded, TrailingHigh;
    var l' := l + [high];
    Grown(l, high);
    if |l'| % 8 == 0 {
      assert l'[..|l'| - 1] == l;
      StoreRecords(rx.data, l', Min(FullBytes(l), MAX_RX_IDX));
    } else {
      RecordsPartial(rx.data, l, high);
    }
  }

  lemma FinishStep(rx: Receiver, l: seq<bool>)
    requires Receives(rx, l)
    ensures Publishes(Finish(rx).last, l)
  {
    var c := Finish(rx).last;
    forall m | 0 <= m < 8 * c.sampleCount
      ensures LevelAt(c.samples, m) == if m < 8 * FullBytes(l) then l[m] else true
    {
      if m < 8 * FullBytes(l) {
        assert LevelAt(rx.data, m) == l[m];
      } else {
        ZeroBits(m % 8);
      }
    }
  }

  lemma StartStep(p: Phy)
    requires WellFormed(p) && p.state.Idle? && p.debounce == RX_START_DEBOUNCE_TICKS - 1
    ensures Simulates(Hearing([false, false]), TickIdle(p, false))
  {
    hide ShiftIn, LevelAt;
    var q := EnterRx(p.(debounce := RX_START_DEBOUNCE_TICKS));
    assert Receives(q.rx, []);
    RecordStep(q.rx, [], false);
    var q1 := TickRx(q, false);
    assert [] + [false] == [false];
    RecordStep(q1.rx, [false], false);
    var q2 := TickRx(q1, false);
    assert [false] + [false] == [false, false];
    assert ReplayLow(q, 2) == ReplayLow(q1, 1) == ReplayLow(q2, 0) == q2;
  }

  lemma TickSimulates(e: Ear, p: Phy, high: bool)
    requires Simulates(e, p)
    ensures Simulates(Listen(e, high), Tick(p, high))
  {
    hide Records, Record, Finish, ReplayLow, TrailingHigh, Folded, Publishes;
    match e
    case Hearing(l) =>
      Grown(l, high);
      RecordStep(p.rx, l, high);
      FinishStep(Record(p.rx, high), l + [high]);
      FinishCompletes(Record(p.rx, high));
    case Quiet(low) =>
      if !high && low + 1 >= RX_START_DEBOUNCE_TICKS {
        StartStep(CountRuns(p, high));
      }
    case Heard(_) =>
  }

  lemma FinishCompletes(rx: Receiver)
    requires |rx.data| == SAMPLE_BUF_LEN
    ensures Finish(rx).state.Completed? && |Finish(rx).data| == SAMPLE_BUF_LEN
  {
  }

  /** For every line, tick by tick, the receiver publishes exactly what the listener heard. */
  lemma {:induction false} ReceiverRefines(p: Phy, line: seq<bool>)
    requires WellFormed(p) && p.state.Idle? && p.debounce == 0
    ensures Simulates(ListenTo(line), Ticks(p, line))
    decreases |line|
  {
    hide Tick, Listen;
    if line != [] {
      var rest := line[..|line| - 1];
      ReceiverRefines(p, rest);
      TickSimulates(ListenTo(rest), Ticks(p, rest), line[|line| - 1]);
    }
  }

  // ---- What a published capture is worth ----

  /** Short of 512 ticks nothing is lost: the capture is the levels, padded recessive. */
  lemma CaptureIsLevels(c: Capture, l: seq<bool>)
    requires Publishes(c, l) && |l| < 8 * SAMPLE_BUF_LEN && TrailingHigh(l) == RX_IDLE_LINE_HIGH_TICKS
    ensures c.sampleCount == |l| / 8 + 1
    ensures forall m | 0 <= m < 8 * c.sampleCount :: LevelAt(c.samples, m) == (m >= |l| || l[m])
  {
    hide Bit;
    TrailingHighBound(l);
    forall m | 0 <= m < 8 * c.sampleCount ensures LevelAt(c.samples, m) == (m >= |l| || l[m]) {
      if m < 8 * FullBytes(l) {
        assert LevelAt(c.samples, m) == l[m];
      }
    }
  }

  /** From quiet, a frame of levels that starts dominant and first stays recessive for 16 ticks at its end. */
  predicate Closes(l: seq<bool>) {
    && |l| >= 2 && !l[0] && !l[1]
    && TrailingHigh(l) == RX_IDLE_LINE_HIGH_TICKS
    && forall k | 2 <= k < |l| :: TrailingHigh(l[..k]) < RX_IDLE_LINE_HIGH_TICKS
  }

  /** The listener hears such a frame whole, after any silence. */
  lemma {:induction false} ClosedFrameIsHeard(line: seq<bool>, l: seq<bool>)
    requires ListenTo(line) == Quiet(0) && Closes(l)
    ensures ListenTo(line + l) == Heard(l)
  {
    hide ListenTo, TrailingHigh, Closes;
    ClosesLast(l);
    ListensUpTo(line, l, |l| - 1);
    assert line + l == line + l[..|l| - 1] + [l[|l| - 1]];
    ListenSnoc(line + l[..|l| - 1], l[|l| - 1]);
    assert l[..|l| - 1] + [l[|l| - 1]] == l;
  }

  lemma ClosesLast(l: seq<bool>)
    requires Closes(l)
    ensures |l| >= 3 && TrailingHigh(l) == RX_IDLE_LINE_HIGH_TICKS
  {
    TrailingHighBound(l);
  }

  lemma {:induction false} ListensUpTo(line: seq<bool>, l: seq<bool>, k: nat)
    requires ListenTo(line) == Quiet(0) && Closes(l) && 2 <= k < |l|
    ensures ListenTo(line + l[..k]) == Hearing(l[..k])
    decreases k
  {
    hide TrailingHigh, ListenTo, Listen;
    assert line + l[..k] == line + l[..k - 1] + [l[k - 1]];
    ListenSnoc(line + l[..k - 1], l[k - 1]);
    if k == 2 {
      assert line + l[..1] == line + [l[0]];
      ListenSnoc(line, l[0]);
      assert l[..2] == [false, false];
      StartsHearing();
    } else {
      ListensUpTo(line, l, k - 1);
      assert l[..k] == l[..k - 1] + [l[k - 1]];
      assert TrailingHigh(l[..k]) < RX_IDLE_LINE_HIGH_TICKS;
      KeepsHearing(l[..k - 1], l[k - 1]);
    }
  }

  lemma ListenSnoc(line: seq<bool>, high: bool)
    ensures ListenTo(line + [high]) == Listen(ListenTo(line), high)
  {
    assert (line + [high])[..|line|] == line;
  }

  lemma StartsHearing()
    ensures Listen(Listen(Quiet(0), false), false) == Hearing([false, false])
  {
  }

  lemma KeepsHearing(l: seq<bool>, high: bool)
    requires TrailingHigh(l + [high]) < RX_IDLE_LINE_HIGH_TICKS
    ensures Listen(Hearing(l), high) == Hearing(l + [high])
  {
  }

  // ---- What the listener remembers ----

  /** What is remembered is the end of what was on the line since it was last quiet. */
  predicate Remembers(e: Ear, x: seq<bool>) {
    match e
    case Quiet(low) => low < RX_START_DEBOUNCE_TICKS && low <= |x| && (low == 1 ==> !x[|x| - 1])
    case Hearing(l) => 2 <= |l| <= |x| && !l[0] && l == x[|x| - |l|..] && TrailingHigh(l) < RX_IDLE_LINE_HIGH_TICKS
    case Heard(l) => 2 <= |l| <= |x| && !l[0] && l == x[|x| - |l|..] && TrailingHigh(l) == RX_IDLE_LINE_HIGH_TICKS
  }

  lemma SuffixGrows(x: seq<bool>, l: seq<bool>, high: bool)
    requires |l| <= |x| && l == x[|x| - |l|..]
    ensures l + [high] == (x + [high])[|x| + 1 - |l + [high]|..]
  {
  }

  lemma TwoLow(x: seq<bool>)
    requires |x| > 0 && !x[|x| - 1]
    ensures [false, false] == (x + [false])[|x| - 1..] && TrailingHigh([false, false]) == 0
  {
    assert !([false, false])[1];
  }

  lemma RemembersNext(e: Ear, x: seq<bool>, high: bool)
    requires Remembers(e, x)
    ensures Remembers(Listen(e, high), x + [high])
  {
    hide TrailingHigh;
    match e
    case Hearing(l) =>
      Grown(l, high);
      SuffixGrows(x, l, high);
    case Quiet(low) =>
      if !high && low == 1 {
        TwoLow(x);
      }
    case Heard(_) =>
  }

  lemma {:induction false} EarRemembers(line: seq<bool>, x: seq<bool>)
    requires ListenTo(line) == Quiet(0)
    ensures Remembers(ListenTo(line + x), x)
    decreases |x|
  {
    hide Listen, Remembers, ListenTo;
    if x == [] {
      assert line + x == line;
      QuietRemembers();
    } else {
      var rest, last := x[..|x| - 1], x[|x| - 1];
      EarRemembers(line, rest);
      assert line + x == line + rest + [last];
      ListenSnoc(line + rest, last);
      RemembersNext(ListenTo(line + rest), rest, last);
      assert rest + [last] == x;
    }
  }

  lemma QuietRemembers()
    ensures Remembers(Quiet(0), [])
  {
  }

  lemma LowBeforeTail(l: seq<bool>)
    requires TrailingHigh(l) < |l|
    ensures !l[|l| - 1 - TrailingHigh(l)]
  {
  }

  /** When all dominant ticks fall into the first `span`, a capture has at most 16 ticks more, and is complete by then. */
  lemma SpanBoundsCapture(line: seq<bool>, x: seq<bool>, span: nat)
    requires ListenTo(line) == Quiet(0) && forall i | span <= i < |x| :: x[i]
    ensures var e := ListenTo(line + x);
            && (e.Heard? ==> |e.levels| <= span + RX_IDLE_LINE_HIGH_TICKS)
            && (|x| >= span + RX_IDLE_LINE_HIGH_TICKS ==> !e.Hearing?)
  {
    hide TrailingHigh, ListenTo;
    EarRemembers(line, x);
    var e := ListenTo(line + x);
    if !e.Quiet? {
      var l := e.levels;
      TrailingHighBound(l);
      LowBeforeTail(l);
    }
  }
}
