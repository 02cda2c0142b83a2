/**
 A value from one transceiver object to another over a shared line (halfbits.rs, fsm.rs,
 manchester.rs, rx_decode.rs): what both ends do, tick by tick, in one method.
 */
module BusTransfer {
  import opened Wrappers
  import opened Fsm
  import opened BitbangPhy
  import opened Manchester
  import opened PhaseSearch
  import opened RxDecode
  import opened RoundTrip

  /** All objects of a transceiver. */
  ghost function Parts(p: DaliBitbangPhy): set<object> {
    {p, p.rx, p.rx.data, p.tx}
  }

  /** One tick of the line both are on. */
  method TickBoth(p: DaliBitbangPhy, q: DaliBitbangPhy)
    requires Parts(p) !! Parts(q) && p.Valid() && q.Valid()
    modifies Parts(p), Parts(q)
    ensures p.Valid() && q.Valid()
    ensures Bus(p.View(), q.View()) == BusTick(old(Bus(p.View(), q.View())))
  {
    hide Tick;
    var line := p.out && q.out;
    p.Tick(line);
    q.Tick(line);
  }

  /** As many ticks of it as asked for. */
  method TickTogether(p: DaliBitbangPhy, q: DaliBitbangPhy, ticks: nat)
    requires Parts(p) !! Parts(q) && p.Valid() && q.Valid()
    modifies Parts(p), Parts(q)
    ensures p.Valid() && q.Valid()
    ensures Bus(p.View(), q.View()) == BusAfter(old(Bus(p.View(), q.View())), ticks)
  {
    hide BusTick;
    for k := 0 to ticks
      invariant p.Valid() && q.Valid()
      invariant Bus(p.View(), q.View()) == BusAfter(old(Bus(p.View(), q.View())), k)
    {
      TickBoth(p, q);
    }
  }

  /** What the receiving end makes of a completed capture. */
  method ReadValue(q: DaliBitbangPhy) returns (got: Option<nat>)
    requires q.Valid() && q.rx.state.Completed? && |q.rx.last.samples| == SAMPLE_BUF_LEN
    modifies q.rx
    ensures q.Valid()
    ensures var c := old(q.rx.last);
            var found := Found(WindowOf(c.samples, c.sampleCount), SNIFFED_BIT_LENGTHS);
            found.Some? && found.value.bitLen <= 8 * |found.value.data| ==> got == Some(DecodedValue(found.value))
  {
    hide Found, DecodedValue, WindowOf;
    var c := q.TakeCompletedRx();
    var found := TryDecode(c.value, SNIFFED_BIT_LENGTHS);
    if found.Some? && found.value.bitLen <= 8 * |found.value.data| {
      return Some(DecodedValue(found.value));
    }
    return None;
  }

  /** Encode at one end, tick both, decode at the other: the value arrives. */
  method Transfer(p: DaliBitbangPhy, q: DaliBitbangPhy, value: u32, n: u8) returns (got: Option<nat>)
    requires Parts(p) !! Parts(q) && p.Valid() && q.Valid()
    requires p.out && p.busState.Idle? && q.out && q.busState.Idle? && q.rxDebounce == 0
    requires (n == 8 || n == 16 || n == 24) && value < Pow2(n)
    modifies Parts(p), Parts(q)
    ensures p.Valid() && q.Valid() && got == Some(value)
    ensures p.tx.collision == 0 && !p.tx.yielded
  {
    hide BusAfter, RoundTrip.Encodes, LoadTx, Found, Undisturbed, DecodedValue, Pow2, BackwardByte, WindowOf, ArrivalTicks;
    var f := EncodeFrame(value, n);
    EncodedIsSendable(f, value, n);
    RoundTrips(p.View(), q.View(), f, value, n, false);
    var started := p.StartTx(f);
    SentUndisturbed(Bus(p.View(), q.View()), f, value, n);
    TickTogether(p, q, ArrivalTicks(value, n));
    got := ReadValue(q);
  }

  lemma SentUndisturbed(b: Bus, f: Frame, value: u32, n: nat)
    requires WellFormed(b.tx) && WellFormed(b.rx) && n > 0 && Encodes(f, value, n)
    requires Undisturbed(b, f, ArrivalTicks(value, n))
    ensures var e := BusAfter(b, ArrivalTicks(value, n)).tx; e.tx.collision == 0 && !e.tx.yielded
  {
    hide BusAfter, Encodes, OutAt;
    EncodedIsSendable(f, value, n);
  }
}
