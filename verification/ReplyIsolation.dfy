/** Any interleaving of register, cancel, the two halves of dispatch, and receive (confirmation_bridge.rs). */
module ReplyIsolation {
  import opened Wrappers
  import opened ConfirmationBridge

  /** Who registered for a handle: for which id, and with which formatter. */
  datatype Owner = Owner(correlation: nat, formatter: Formatter)

  /**
   The desk, the bodies on their way between the two halves of a dispatch, whose handle is whose,
   what was received, and every confirmation dispatched so far.
   */
  datatype Room = Room(
    desk: Desk,
    flights: seq<(Handle, Body)>,
    owner: map<Handle, Owner>,
    received: seq<(Handle, Body)>,
    dispatched: seq<Confirmation>)

  datatype Move =
    | Register(slot: nat, correlation: nat, formatter: Formatter)
    | CancelAt(slot: nat)
    | TakeAt(slot: nat, confirmation: Confirmation)
    | DeliverFlight(flight: nat)
    | ReceiveBy(handle: Handle)

  /** One step; a move whose condition fails does nothing, as the call it stands for does. */
  function Step(r: Room, m: Move): Room
    requires DeskOk(r.desk)
  {
    var d := r.desk;
    match m
    case Register(i, correlation, f) =>
      if i < |d.slots| && d.slots[i].None? && !Known(d, correlation) then
        var e := Registered(d, i, correlation, f);
        r.(desk := e, owner := r.owner[Handle(i, e.waiters[i].generation) := Owner(correlation, f)])
      else r
    case CancelAt(i) => if i < |d.slots| then r.(desk := Freed(d, i)) else r
    case TakeAt(i, c) =>
      if Holds(d, i, c.correlation) then
        r.(desk := Freed(d, i), dispatched := r.dispatched + [c],
           flights := r.flights + [(Handle(i, d.slots[i].value.generation), Format(d.slots[i].value, c))])
      else r
    case DeliverFlight(k) =>
      if k < |r.flights| then
        r.(desk := Delivered(d, r.flights[k].0, r.flights[k].1), flights := r.flights[..k] + r.flights[k + 1..])
      else r
    case ReceiveBy(h) =>
      var (e, body) := Taken(d, h);
      if body.Some? then r.(desk := e, received := r.received + [(h, body.value)]) else r.(desk := e)
  }

  // ---- The invariant ----

  predicate LiveAt(d: Desk, h: Handle) {
    h.index < |d.slots| && d.slots[h.index].Some? && d.slots[h.index].value.generation == h.generation
  }

  predicate WaitingAt(d: Desk, h: Handle) {
    h.index < |d.waiters| && d.waiters[h.index].generation == h.generation && d.waiters[h.index].body.Some?
  }

  predicate Among(s: seq<(Handle, Body)>, h: Handle) {
    exists k | 0 <= k < |s| :: s[k].0 == h
  }

  /** The formatter made this body of the confirmation, or the body says that it could not. */
  predicate MadeFrom(body: Body, o: Owner, c: Confirmation) {
    && c.correlation == o.correlation
    && (o.formatter(c) == Some(body) || (o.formatter(c).None? && body == FORMATTER_FAILED_BODY))
  }

  /** The body is what the owner's formatter made of a dispatched confirmation of the owner's id. */
  predicate MadeFor(body: Body, o: Owner, dispatched: seq<Confirmation>) {
    exists c | c in dispatched :: MadeFrom(body, o, c)
  }

  /** Every handle at most once, each with a body made for its owner. */
  predicate Proper(s: seq<(Handle, Body)>, owner: map<Handle, Owner>, dispatched: seq<Confirmation>) {
    && (forall k | 0 <= k < |s| :: s[k].0 in owner && MadeFor(s[k].1, owner[s[k].0], dispatched))
    && forall i, j | 0 <= i < j < |s| :: s[i].0 != s[j].0
  }

  predicate Distinct(d: Desk) {
    forall i, j | 0 <= i < j < |d.slots| && d.slots[i].Some? && d.slots[j].Some? ::
      d.slots[i].value.correlation != d.slots[j].value.correlation
  }

  /** What slots and waiters hold belongs to the handle of their generation; a live slot has no body yet. */
  ghost predicate DeskInv(d: Desk, owner: map<Handle, Owner>, dispatched: seq<Confirmation>) {
    && DeskOk(d) && Distinct(d)
    && (forall h | h in owner :: h.index < |d.waiters| && h.generation <= d.waiters[h.index].generation)
    && (forall i | 0 <= i < |d.slots| && d.slots[i].Some? ::
          var s := d.slots[i].value;
          && s.generation == d.waiters[i].generation && d.waiters[i].body.None?
          && Handle(i, s.generation) in owner && owner[Handle(i, s.generation)] == Owner(s.correlation, s.formatter))
    && (forall i | 0 <= i < |d.waiters| && d.waiters[i].body.Some? ::
          var h := Handle(i, d.waiters[i].generation);
          h in owner && MadeFor(d.waiters[i].body.value, owner[h], dispatched))
  }

  ghost predicate AwayFrom(d: Desk, s: seq<(Handle, Body)>) {
    forall h | Among(s, h) :: !LiveAt(d, h) && !WaitingAt(d, h)
  }

  ghost predicate Apart(s: seq<(Handle, Body)>, t: seq<(Handle, Body)>) {
    forall h | Among(s, h) :: !Among(t, h)
  }

  /** A handle lives in a slot, is in flight, waits with its body, or has received: in one of these at most. */
  ghost predicate Inv(r: Room) {
    && DeskInv(r.desk, r.owner, r.dispatched)
    && Proper(r.flights, r.owner, r.dispatched) && Proper(r.received, r.owner, r.dispatched)
    && AwayFrom(r.desk, r.flights) && AwayFrom(r.desk, r.received) && Apart(r.flights, r.received)
  }

  lemma RegisterDesk(d: Desk, owner: map<Handle, Owner>, dispatched: seq<Confirmation>, i: nat, correlation: nat, f: Formatter)
    requires DeskInv(d, owner, dispatched) && i < |d.slots| && d.slots[i].None? && !Known(d, correlation)
    ensures var e := Registered(d, i, correlation, f);
            var h := Handle(i, e.waiters[i].generation);
            h !in owner && DeskInv(e, owner[h := Owner(correlation, f)], dispatched)
  {
    var e := Registered(d, i, correlation, f);
    forall a, b | 0 <= a < b < |e.slots| && e.slots[a].Some? && e.slots[b].Some?
      ensures e.slots[a].value.correlation != e.slots[b].value.correlation
    {
      assert a != i ==> Holds(d, a, e.slots[a].value.correlation);
      assert b != i ==> Holds(d, b, e.slots[b].value.correlation);
    }
  }

  lemma AmongOwned(s: seq<(Handle, Body)>, owner: map<Handle, Owner>, dispatched: seq<Confirmation>, h: Handle)
    requires Proper(s, owner, dispatched) && Among(s, h)
    ensures h in owner
  {
  }

  lemma RegisterAway(d: Desk, owner: map<Handle, Owner>, dispatched: seq<Confirmation>, i: nat, correlation: nat, f: Formatter, s: seq<(Handle, Body)>)
    requires DeskInv(d, owner, dispatched) && i < |d.slots| && Proper(s, owner, dispatched) && AwayFrom(d, s)
    ensures AwayFrom(Registered(d, i, correlation, f), s)
  {
    hide Among, Proper;
    forall h | Among(s, h) ensures !LiveAt(Registered(d, i, correlation, f), h) && !WaitingAt(Registered(d, i, correlation, f), h) {
      AmongOwned(s, owner, dispatched, h);
    }
  }

  lemma RegisterKeeps(r: Room, i: nat, correlation: nat, f: Formatter)
    requires Inv(r)
    ensures Inv(Step(r, Register(i, correlation, f)))
  {
    hide DeskInv, AwayFrom, Apart, Registered;
    if i < |r.desk.slots| && r.desk.slots[i].None? && !Known(r.desk, correlation) {
      RegisterDesk(r.desk, r.owner, r.dispatched, i, correlation, f);
      RegisterAway(r.desk, r.owner, r.dispatched, i, correlation, f, r.flights);
      RegisterAway(r.desk, r.owner, r.dispatched, i, correlation, f, r.received);
    }
  }

  lemma CancelKeeps(r: Room, i: nat)
    requires Inv(r)
    ensures Inv(Step(r, CancelAt(i)))
  {
  }

  lemma TakeKeeps(r: Room, i: nat, c: Confirmation)
    requires Inv(r)
    ensures Inv(Step(r, TakeAt(i, c)))
  {
    hide Format;
    var q := Step(r, TakeAt(i, c));
    if Holds(r.desk, i, c.correlation) {
      var h := Handle(i, r.desk.slots[i].value.generation);
      FormatIsMade(r.desk.slots[i].value, c);
      MadeStays(r, q);
      assert LiveAt(r.desk, h);
      assert !Among(r.flights, h) && !Among(r.received, h);
      AmongGrows(r.flights, (h, Format(r.desk.slots[i].value, c)));
    }
  }

  lemma FormatIsMade(s: Slot, c: Confirmation)
    requires s.correlation == c.correlation
    ensures MadeFrom(Format(s, c), Owner(s.correlation, s.formatter), c)
  {
  }

  /** A body stays what it was made of. */
  lemma MadeStays(r: Room, q: Room)
    requires forall c | c in r.dispatched :: c in q.dispatched
    ensures forall body, o | MadeFor(body, o, r.dispatched) :: MadeFor(body, o, q.dispatched)
  {
  }

  lemma AmongGrows(s: seq<(Handle, Body)>, x: (Handle, Body))
    ensures forall h :: Among(s + [x], h) <==> Among(s, h) || h == x.0
  {
    forall h ensures Among(s + [x], h) <==> Among(s, h) || h == x.0 {
      if Among(s, h) {
        var k :| 0 <= k < |s| && s[k].0 == h;
        assert (s + [x])[k].0 == h;
      }
      if h == x.0 {
        assert (s + [x])[|s|].0 == h;
      }
    }
  }

  lemma AmongShrinks(s: seq<(Handle, Body)>, k: nat)
    requires k < |s|
    ensures forall h :: Among(s[..k] + s[k + 1..], h) ==> Among(s, h)
  {
    var t := s[..k] + s[k + 1..];
    forall h | Among(t, h) ensures Among(s, h) {
      var j :| 0 <= j < |t| && t[j].0 == h;
      assert t[j] == s[if j < k then j else j + 1];
    }
  }

  lemma DeliverDesk(d: Desk, owner: map<Handle, Owner>, dispatched: seq<Confirmation>, h: Handle, body: Body)
    requires DeskInv(d, owner, dispatched) && h in owner && MadeFor(body, owner[h], dispatched) && !LiveAt(d, h)
    ensures DeskInv(Delivered(d, h, body), owner, dispatched)
  {
  }

  lemma DeliverAway(d: Desk, h: Handle, body: Body, s: seq<(Handle, Body)>)
    requires AwayFrom(d, s) && !Among(s, h)
    ensures AwayFrom(Delivered(d, h, body), s)
  {
    hide Among;
  }

  /** The flight that was delivered is gone, the others stay. */
  lemma FlightGone(s: seq<(Handle, Body)>, owner: map<Handle, Owner>, dispatched: seq<Confirmation>, k: nat)
    requires Proper(s, owner, dispatched) && k < |s|
    ensures var t := s[..k] + s[k + 1..];
            Proper(t, owner, dispatched) && !Among(t, s[k].0) && forall h | Among(t, h) :: Among(s, h)
  {
    AmongShrinks(s, k);
  }

  lemma DeliverKeeps(r: Room, k: nat)
    requires Inv(r)
    ensures Inv(Step(r, DeliverFlight(k)))
  {
    hide DeskInv, Proper, Delivered, Among;
    if k < |r.flights| {
      var h, body := r.flights[k].0, r.flights[k].1;
      FlightOwned(r, k);
      FlightGone(r.flights, r.owner, r.dispatched, k);
      DeliverDesk(r.desk, r.owner, r.dispatched, h, body);
      DeliverAway(r.desk, h, body, r.flights[..k] + r.flights[k + 1..]);
      DeliverAway(r.desk, h, body, r.received);
    }
  }

  lemma FlightOwned(r: Room, k: nat)
    requires Inv(r) && k < |r.flights|
    ensures var h := r.flights[k].0;
            Among(r.flights, h) && !LiveAt(r.desk, h) && !Among(r.received, h) && h in r.owner
            && MadeFor(r.flights[k].1, r.owner[h], r.dispatched)
            && DeskOk(r.desk)
  {
    assert Among(r.flights, r.flights[k].0);
  }

  lemma ReceiveKeeps(r: Room, h: Handle)
    requires Inv(r)
    ensures Inv(Step(r, ReceiveBy(h)))
  {
    hide Proper;
    var q := Step(r, ReceiveBy(h));
    var body := Taken(r.desk, h).1;
    if body.Some? {
      ReceivedProper(r, h);
      assert WaitingAt(r.desk, h);
      assert !Among(r.flights, h) && !Among(r.received, h);
      AmongGrows(r.received, (h, body.value));
    }
  }

  lemma ReceivedProper(r: Room, h: Handle)
    requires Inv(r) && WaitingAt(r.desk, h)
    ensures Proper(r.received + [(h, r.desk.waiters[h.index].body.value)], r.owner, r.dispatched)
  {
    assert !Among(r.received, h);
  }

  lemma StepKeeps(r: Room, m: Move)
    requires Inv(r)
    ensures Inv(Step(r, m))
  {
    hide Step, Inv;
    match m
    case Register(i, correlation, f) => RegisterKeeps(r, i, correlation, f);
    case CancelAt(i) => CancelKeeps(r, i);
    case TakeAt(i, c) => TakeKeeps(r, i, c);
    case DeliverFlight(k) => DeliverKeeps(r, k);
    case ReceiveBy(h) => ReceiveKeeps(r, h);
  }

  function Run(r: Room, moves: seq<Move>): (q: Room)
    requires DeskOk(r.desk)
    ensures DeskOk(q.desk)
    decreases |moves|
  {
    if moves == [] then r else Run(Step(r, moves[0]), moves[1..])
  }

  lemma {:induction false} RunKeeps(r: Room, moves: seq<Move>)
    requires Inv(r)
    ensures Inv(Run(r, moves))
    decreases |moves|
  {
    hide Step, Inv;
    InvDesk(r);
    if moves != [] {
      StepKeeps(r, moves[0]);
      InvDesk(Step(r, moves[0]));
      RunKeeps(Step(r, moves[0]), moves[1..]);
    }
  }

  lemma InvDesk(r: Room)
    requires Inv(r)
    ensures DeskOk(r.desk)
  {
  }

  function Opened(capacity: nat): Room
    requires capacity > 0
  {
    Room(Desk(seq(capacity, _ => None), seq(capacity, _ => Waiter(0, None)), 0), [], map[], [], [])
  }

  lemma OpenedInv(capacity: nat)
    requires capacity > 0
    ensures Inv(Opened(capacity))
  {
  }

  /**
   In every run a handle receives at most one body, the one its own formatter made of a dispatched
   confirmation of its own id; ids in slots are distinct.
   */
  lemma RepliesAreIsolated(capacity: nat, moves: seq<Move>)
    requires capacity > 0
    ensures var r := Run(Opened(capacity), moves);
            && Distinct(r.desk)
            && (forall k | 0 <= k < |r.received| ::
                  r.received[k].0 in r.owner && MadeFor(r.received[k].1, r.owner[r.received[k].0], r.dispatched))
            && forall i, j | 0 <= i < j < |r.received| :: r.received[i].0 != r.received[j].0
  {
    hide Run;
    OpenedInv(capacity);
    RunKeeps(Opened(capacity), moves);
  }

  /** Whose a handle is never changes. */
  lemma OwnersStay(r: Room, m: Move, h: Handle)
    requires Inv(r) && h in r.owner
    ensures h in Step(r, m).owner && Step(r, m).owner[h] == r.owner[h]
  {
  }
}
