/**
 The transceiver object (fsm.rs): every method brings its fields to what the Fsm functions say.
 The receiving and the sending fields of the source's one struct are two objects here.
 */
module BitbangPhy {
  import opened Wrappers
  import opened Bits
  import opened HalfBits
  import opened Fsm

  /** The `rx_` fields: a capture under way in a fixed buffer, and the last one completed. */
  class ReceiveBuffer {
    var state: RxState
    const data: array<bv8>
    var pos: nat
    var byte: bv8
    var bitCount: nat
    var idle: nat
    var preIdle: nat
    var last: Capture

    ghost function View(): Receiver
      reads this, data
    {
      Receiver(state, data[..], pos, byte, bitCount, idle, preIdle, last)
    }

    constructor ()
      ensures fresh(data) && data.Length == SAMPLE_BUF_LEN && View() == NewPhy().rx
    {
      data := new bv8[SAMPLE_BUF_LEN](_ => 0);
      state, pos, byte, bitCount, idle, preIdle, last := Empty, 0, 0, 0, 0, 0, NO_CAPTURE;
      new;
      assert data[..] == seq(SAMPLE_BUF_LEN, i => 0);
    }

    method Enter(idleCount: nat)
      modifies this
      ensures View() == old(View()).(preIdle := if idleCount > 0xFF then 0xFF else idleCount,
                                     pos := 0, bitCount := 0, idle := 0, byte := 0, state := Receiving)
    {
      preIdle := if idleCount > 0xFF then 0xFF else idleCount;
      pos, bitCount, idle, byte := 0, 0, 0, 0;
      state := Receiving;
    }

    method RecordLevel(high: bool)
      requires data.Length == SAMPLE_BUF_LEN
      modifies this, data
      ensures View() == Record(old(View()), high)
    {
      hide ShiftIn;
      byte := ShiftIn(byte, high);
      bitCount := (bitCount + 1) % 0x100;
      if bitCount == 8 {
        var at := if pos < MAX_RX_IDX then pos else MAX_RX_IDX;
        data[at] := byte;
        assert data[..] == old(data[..])[at := byte];
        pos := if pos + 1 > MAX_RX_IDX then MAX_RX_IDX else pos + 1;
        bitCount := 0;
      }
      idle := if high then SatAdd(idle, 0xFF) else 0;
    }

    method Close()
      requires data.Length == SAMPLE_BUF_LEN
      modifies this, data
      ensures View() == Finish(old(View()))
    {
      if pos < SAMPLE_BUF_LEN {
        data[pos] := 0xFF;
        assert data[..] == old(data[..])[pos := 0xFF];
      }
      pos := SatAdd(pos, 0xFFFF);
      state := Completed;
      last := Capture(data[..], pos, preIdle);
    }
  }

  /** The `tx_` fields. */
  class SendBuffer {
    var frame: Frame
    var count: nat
    var slot: nat
    var high: bool
    var collision: nat
    var idleAfterBreak: bool
    var armed: nat
    var yielded: bool
    var answer: bool
    var preIdle: nat

    ghost function View(): Sender
      reads this
    {
      Sender(frame, count, slot, high, collision, idleAfterBreak, armed, yielded, answer, preIdle)
    }

    constructor ()
      ensures View() == NewPhy().tx
    {
      frame, count, slot, high, collision, idleAfterBreak := BLANK_FRAME, 0, 0, false, 0, false;
      armed, yielded, answer, preIdle := 0, false, false, 0;
    }
  }

  class DaliBitbangPhy {
    var out: bool
    var txBusy: bool
    var busState: BusState
    var idleCount: nat
    var highRunTicks: nat
    var lowRunTicks: nat
    var rxDebounce: nat
    var collisionPolicy: CollisionPolicy
    const rx: ReceiveBuffer
    const tx: SendBuffer

    ghost function View(): Phy
      reads this, rx, rx.data, tx
    {
      Phy(out, txBusy, busState, idleCount, highRunTicks, lowRunTicks, rxDebounce, collisionPolicy, rx.View(), tx.View())
    }

    ghost predicate Valid()
      reads this, rx, rx.data, tx
    {
      rx.data.Length == SAMPLE_BUF_LEN && WellFormed(View())
    }

    constructor ()
      ensures fresh(rx) && fresh(rx.data) && fresh(tx) && Valid() && View() == NewPhy()
    {
      rx := new ReceiveBuffer();
      tx := new SendBuffer();
      out, txBusy, busState, idleCount := true, false, Idle, 0;
      highRunTicks, lowRunTicks, rxDebounce, collisionPolicy := 0, 0, 0, Auto;
      new;
      SetBusIdle();
    }

    method SetBusIdle()
      modifies this
      ensures View() == Fsm.SetBusIdle(old(View()))
    {
      out := true;
      idleCount := highRunTicks;
      rxDebounce := 0;
      busState := Idle;
      txBusy := false;
    }

    method EnterRx()
      modifies this, rx
      ensures View() == Fsm.EnterRx(old(View()))
    {
      rx.Enter(idleCount);
      busState := Rx;
    }

    method TickRx(high: bool)
      requires Valid()
      modifies this, rx, rx.data
      ensures Valid() && View() == Fsm.TickRx(old(View()), high)
    {
      hide Record, Finish;
      rx.RecordLevel(high);
      if high && rx.idle >= RX_IDLE_LINE_HIGH_TICKS {
        rx.Close();
        SetBusIdle();
      }
    }

    method TickIdle(high: bool)
      requires Valid()
      modifies this, rx, rx.data
      ensures Valid() && View() == Fsm.TickIdle(old(View()), high)
    {
      hide Fsm.TickRx;
      if high {
        rxDebounce := 0;
        idleCount := SatAdd(idleCount, 0xFFFF);
        return;
      }
      rxDebounce := SatAdd(rxDebounce, 0xFF);
      if rxDebounce >= RX_START_DEBOUNCE_TICKS {
        EnterRx();
        ghost var entered := View();
        var ticks := rxDebounce;
        for k := 0 to ticks
          invariant Valid() && ReplayLow(View(), ticks - k) == ReplayLow(entered, ticks)
        {
          TickRx(false);
        }
      }
    }

    method TickTxArmed(high: bool)
      requires Valid()
      modifies this, rx, rx.data, tx
      ensures Valid() && View() == Fsm.TickTxArmed(old(View()), high)
    {
      hide Fsm.TickIdle;
      if !high && !tx.answer {
        tx.yielded := true;
        tx.armed := 0;
        SetBusIdle();
        TickIdle(high);
        return;
      }
      tx.armed := SatDec(tx.armed);
    }

    method EnterCollisionTx()
      modifies this, tx
      ensures View() == Fsm.EnterCollisionTx(old(View()))
    {
      tx.collision := SatAdd(tx.collision, 0xFF);
      tx.slot := 0;
      tx.idleAfterBreak := false;
      busState := CollisionTx;
    }

    method TxCollisionDetected(high: bool) returns (detected: bool)
      ensures detected == CollisionDetected(View(), high)
    {
      var policyOk := collisionPolicy.On? || (collisionPolicy.Auto? && tx.frame.length != BACKWARD_FRAME_HALF_BITS);
      detected := policyOk && tx.high && !high && (tx.slot == 1 || tx.slot == 2);
    }

    method TickTx(high: bool)
      requires Valid()
      modifies this, rx, rx.data, tx
      ensures Valid() && View() == Fsm.TickTx(old(View()), high)
    {
      hide Fsm.TickTxArmed, CollisionDetected, Bit;
      if tx.armed != 0 {
        TickTxArmed(high);
        return;
      }
      if tx.count >= tx.frame.length {
        SetBusIdle();
        return;
      }
      var collided := TxCollisionDetected(high);
      if collided {
        EnterCollisionTx();
        return;
      }
      if tx.slot == 0 {
        if tx.count / 8 >= DATA_LEN {
          SetBusIdle();
          return;
        }
        DriveHalfBit();
      }
      tx.slot := SatDec(tx.slot);
    }

    method DriveHalfBit()
      requires Valid() && tx.count / 8 < DATA_LEN
      modifies this, tx
      ensures Valid() && View() == Fsm.DriveHalfBit(old(View()))
    {
      hide Bit;
      if Bit(tx.frame.data[tx.count / 8], tx.count % 8) {
        out := false;
        tx.high := false;
      } else {
        out := true;
        tx.high := true;
      }
      tx.count := (tx.count + 1) % 0x100;
      tx.slot := TX_HALF_BIT_TICKS;
    }

    method TickCollisionTx(high: bool)
      requires Valid()
      modifies this, rx, rx.data, tx
      ensures Valid() && View() == Fsm.TickCollisionTx(old(View()), high)
    {
      hide Fsm.TickIdle;
      tx.slot := (tx.slot + 1) % 0x100;
      if tx.slot <= COLLISION_BREAK_TICKS {
        out := false;
        return;
      }
      out := true;
      if tx.slot < COLLISION_CHECK_TICK {
        return;
      }
      tx.idleAfterBreak := high;
      SetBusIdle();
      if !high {
        TickIdle(high);
      }
    }

    method Tick(high: bool)
      requires Valid()
      modifies this, rx, rx.data, tx
      ensures Valid() && View() == Fsm.Tick(old(View()), high)
    {
      hide Fsm.TickIdle, Fsm.TickRx, Fsm.TickTx, Fsm.TickCollisionTx;
      lowRunTicks := if high then 0 else SatAdd(lowRunTicks, 0xFFFF);
      highRunTicks := if high then SatAdd(highRunTicks, 0xFFFF) else 0;
      match busState {
        case Idle => TickIdle(high);
        case Rx => TickRx(high);
        case Tx => TickTx(high);
        case CollisionTx => TickCollisionTx(high);
      }
    }

    method Load(f: Frame, answer: bool) returns (ok: bool)
      requires Valid() && |f.data| == DATA_LEN
      modifies this, rx, tx
      ensures ok == Sendable(f)
      ensures Valid() && View() == if ok then LoadTx(old(View()), f, answer) else old(View())
    {
      if f.length == 0 || f.length > MAX_DATA_HALF_BITS {
        return false;
      }
      tx.answer := answer;
      tx.preIdle := idleCount;
      tx.frame := f;
      tx.count, tx.slot, tx.collision := 0, 0, 0;
      tx.idleAfterBreak, tx.yielded := false, false;
      tx.armed := TX_ARM_LEAD_TICKS;
      rx.state := Empty;
      busState := Tx;
      txBusy := true;
      return true;
    }

    method StartTx(f: Frame) returns (ok: bool)
      requires Valid() && |f.data| == DATA_LEN
      modifies this, rx, tx
      ensures ok == CanStartTx(old(View()), f)
      ensures Valid() && View() == if ok then LoadTx(old(View()), f, false) else old(View())
    {
      if !busState.Idle? {
        return false;
      }
      ok := Load(f, false);
    }

    method StartAnswer(f: Frame) returns (ok: bool)
      requires Valid() && |f.data| == DATA_LEN
      modifies this, rx, tx
      ensures ok == CanStartAnswer(old(View()), f)
      ensures Valid() && View() == if ok then LoadTx(old(View()), f, true) else old(View())
    {
      if !busState.Idle? && !busState.Rx? {
        return false;
      }
      ok := Load(f, true);
    }

    method PollTxState() returns (r: TxPoll)
      requires Valid()
      modifies tx
      ensures Valid() && (View(), r) == PollTx(old(View()))
    {
      if tx.yielded {
        tx.yielded := false;
        return Yielded;
      }
      if tx.collision != 0 {
        tx.collision := 0;
        return Collision;
      }
      return if busState.Tx? then Transmitting else Sent;
    }

    method TakeCompletedRx() returns (r: Option<Capture>)
      requires Valid()
      modifies rx
      ensures Valid() && (View(), r) == TakeCompleted(old(View()))
    {
      if !rx.state.Completed? {
        return None;
      }
      r := Some(rx.last);
      rx.state := Empty;
    }
  }
}
