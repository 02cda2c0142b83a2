/**
 Replies to requests that wait for a confirmation (confirmation_bridge.rs): slots by correlation
 id, waiters guarded by a generation, and a dispatch that delivers after it has let go of the
 slots. Generations are counted without wrap-around.
 */
module ConfirmationBridge {
  import opened Wrappers

  datatype Confirmation = Confirmation(correlation: nat, payload: seq<u8>)

  type Formatter = Confirmation -> Option<seq<u8>>

  type Body = seq<u8>

  /** The bytes of a text in ASCII. */
  function Bytes(text: string): seq<u8> {
    seq(|text|, i requires 0 <= i < |text| => text[i] as int % 0x100)
  }

  /** The body for a formatter that gave none. */
  const FORMATTER_FAILED_BODY: Body :=
    Bytes("{\"success\":false,\"error\":\"formatter_failed\",\"error_code\":\"formatter_failed\"}")

  datatype Slot = Slot(correlation: nat, formatter: Formatter, generation: nat)
  datatype Waiter = Waiter(generation: nat, body: Option<Body>)
  datatype Handle = Handle(index: nat, generation: nat)

  /** The slots and their waiters. */
  datatype Desk = Desk(slots: seq<Option<Slot>>, waiters: seq<Waiter>, unmatched: nat)

  predicate DeskOk(d: Desk) {
    |d.slots| == |d.waiters| > 0
  }

  function Format(s: Slot, c: Confirmation): Body {
    match s.formatter(c)
    case Some(bytes) => bytes
    case None => FORMATTER_FAILED_BODY
  }

  // ---- The operations, each under its lock ----

  predicate Holds(d: Desk, i: int, correlation: nat) {
    0 <= i < |d.slots| && d.slots[i].Some? && d.slots[i].value.correlation == correlation
  }

  predicate Known(d: Desk, correlation: nat) {
    exists i | 0 <= i < |d.slots| :: Holds(d, i, correlation)
  }

  /** `i` is the first free slot. */
  predicate FirstFree(d: Desk, i: nat) {
    i < |d.slots| && d.slots[i].None? && forall j | 0 <= j < i :: d.slots[j].Some?
  }

  /** `i` is the first slot of this correlation id. */
  predicate FirstHeld(d: Desk, i: nat, correlation: nat) {
    Holds(d, i, correlation) && forall j | 0 <= j < i :: !Holds(d, j, correlation)
  }

  function Registered(d: Desk, i: nat, correlation: nat, f: Formatter): Desk
    requires DeskOk(d) && i < |d.slots|
  {
    var g := d.waiters[i].generation + 1;
    d.(waiters := d.waiters[i := Waiter(g, None)], slots := d.slots[i := Some(Slot(correlation, f, g))])
  }

  function Freed(d: Desk, i: nat): Desk
    requires i < |d.slots|
  {
    d.(slots := d.slots[i := None])
  }

  function Delivered(d: Desk, h: Handle, body: Body): Desk {
    if h.index < |d.waiters| && d.waiters[h.index].generation == h.generation then
      d.(waiters := d.waiters[h.index := Waiter(h.generation, Some(body))])
    else d
  }

  function Taken(d: Desk, h: Handle): (Desk, Option<Body>) {
    if h.index < |d.waiters| && d.waiters[h.index].generation == h.generation then
      (d.(waiters := d.waiters[h.index := Waiter(h.generation, None)]), d.waiters[h.index].body)
    else (d, None)
  }

  // ---- The object ----

  class PendingConfirmationSlots {
    var slots: seq<Option<Slot>>
    var waiters: seq<Waiter>
    var unmatched: nat

    ghost function View(): Desk
      reads this
    {
      Desk(slots, waiters, unmatched)
    }

    ghost predicate Valid()
      reads this
    {
      DeskOk(View())
    }

    constructor (capacity: nat)
      ensures Valid() && |slots| == (if capacity > 1 then capacity else 1) && unmatched == 0
      ensures forall i | 0 <= i < |slots| :: slots[i].None? && waiters[i] == Waiter(0, None)
    {
      var n := if capacity > 1 then capacity else 1;
      slots := seq(n, _ => None);
      waiters := seq(n, _ => Waiter(0, None));
      unmatched := 0;
    }

    method FindHeld(correlation: nat) returns (at: Option<nat>)
      ensures at.Some? ==> FirstHeld(View(), at.value, correlation)
      ensures at.None? ==> !Known(View(), correlation)
    {
      var i := 0;
      while i < |slots|
        invariant 0 <= i <= |slots| && forall j | 0 <= j < i :: !Holds(View(), j, correlation)
      {
        if slots[i].Some? && slots[i].value.correlation == correlation {
          return Some(i);
        }
        i := i + 1;
      }
      return None;
    }

    /** Refused exactly when the id is in use or no slot is free; otherwise the first free slot is taken. */
    method TryRegister(correlation: nat, f: Formatter) returns (h: Option<Handle>)
      requires Valid()
      modifies this
      ensures Valid()
      ensures h.None? <==> Known(old(View()), correlation) || forall i | 0 <= i < |old(slots)| :: old(slots)[i].Some?
      ensures h.None? ==> View() == old(View())
      ensures h.Some? ==> FirstFree(old(View()), h.value.index) && View() == Registered(old(View()), h.value.index, correlation, f)
                          && h.value.generation == waiters[h.value.index].generation
    {
      var used := FindHeld(correlation);
      if used.Some? {
        assert Holds(View(), used.value, correlation);
        return None;
      }
      var i := 0;
      while i < |slots| && slots[i].Some?
        invariant 0 <= i <= |slots| && forall j | 0 <= j < i :: slots[j].Some?
      {
        i := i + 1;
      }
      if i == |slots| {
        return None;
      }
      var g := waiters[i].generation + 1;
      waiters := waiters[i := Waiter(g, None)];
      slots := slots[i := Some(Slot(correlation, f, g))];
      return Some(Handle(i, g));
    }

    method Cancel(correlation: nat)
      requires Valid()
      modifies this
      ensures Valid()
      ensures !Known(old(View()), correlation) ==> View() == old(View())
      ensures Known(old(View()), correlation) ==>
                exists i: nat :: FirstHeld(old(View()), i, correlation) && View() == Freed(old(View()), i)
    {
      var at := FindHeld(correlation);
      if at.Some? {
        ghost var i := at.value;
        assert FirstHeld(old(View()), i, correlation);
        slots := slots[at.value := None];
        assert View() == Freed(old(View()), i);
      }
    }

    /** The first half of a dispatch: the slot is taken out under the lock. */
    method TakeSlot(c: Confirmation) returns (flight: Option<(Handle, Body)>)
      requires Valid()
      modifies this
      ensures Valid()
      ensures flight.Some? <==> Known(old(View()), c.correlation)
      ensures flight.Some? ==>
                var i := flight.value.0.index;
                && FirstHeld(old(View()), i, c.correlation) && View() == Freed(old(View()), i)
                && flight.value == (Handle(i, old(slots)[i].value.generation), Format(old(slots)[i].value, c))
      ensures flight.None? ==> View() == old(View()).(unmatched := old(unmatched) + 1)
    {
      var at := FindHeld(c.correlation);
      if at.None? {
        unmatched := unmatched + 1;
        return None;
      }
      var s := slots[at.value].value;
      assert Holds(View(), at.value, c.correlation);
      slots := slots[at.value := None];
      return Some((Handle(at.value, s.generation), Format(s, c)));
    }

    /** The second half, after the slots are let go: a body for an earlier generation is dropped. */
    method Deliver(h: Handle, body: Body) returns (ok: bool)
      requires Valid() && h.index < |slots|
      modifies this
      ensures Valid() && View() == Delivered(old(View()), h, body)
      ensures ok == (old(waiters)[h.index].generation == h.generation)
    {
      if waiters[h.index].generation != h.generation {
        return false;
      }
      waiters := waiters[h.index := waiters[h.index].(body := Some(body))];
      return true;
    }

    /** A receive takes the body of its own generation and no other. */
    method Receive(h: Handle) returns (body: Option<Body>)
      requires Valid() && h.index < |slots|
      modifies this
      ensures Valid() && (View(), body) == Taken(old(View()), h)
    {
      if waiters[h.index].generation != h.generation {
        return None;
      }
      body := waiters[h.index].body;
      waiters := waiters[h.index := waiters[h.index].(body := None)];
    }
  }
}
