/** Routing of commands to the inboxes that declared them, and the rejection when none takes one (bus.rs). */
module BusRouting {
  import opened Wrappers
  import opened RouteMask

  const MAX_ROUTED_SUBSCRIBERS := 16
  const COMMAND_DRAIN_BATCH := 32

  datatype Command = Command(variant: nat, correlation: nat, payload: seq<u8>)
  datatype BusFrame = CommandFrame(command: Command) | ConfirmationFrame(correlation: nat, payload: seq<u8>) | EventFrame(payload: seq<u8>)

  /** What the contracts make of a command nobody took, if anything. */
  type Synthetic = Command -> Option<BusFrame>

  // ---- Inboxes ----

  datatype Inbox = Inbox(open: bool, capacity: nat, contents: seq<BusFrame>, delivered: nat, overflow: nat)

  predicate Accepts(b: Inbox) {
    b.open && |b.contents| < b.capacity
  }

  function Sent(b: Inbox, f: BusFrame): Inbox {
    if Accepts(b) then b.(contents := b.contents + [f], delivered := b.delivered + 1) else b.(overflow := b.overflow + 1)
  }

  /** The frame goes once to every inbox of the set. */
  function Targeted(boxes: seq<Inbox>, mask: bv16, f: BusFrame): (r: seq<Inbox>)
    ensures |r| == |boxes|
    ensures forall i | 0 <= i < |boxes| :: r[i] == if InMask(mask, i) then Sent(boxes[i], f) else boxes[i]
  {
    seq(|boxes|, i requires 0 <= i < |boxes| => if InMask(mask, i) then Sent(boxes[i], f) else boxes[i])
  }

  predicate SomeAccepts(boxes: seq<Inbox>, mask: bv16) {
    exists i | 0 <= i < |boxes| :: InMask(mask, i) && Accepts(boxes[i])
  }

  function FannedOut(boxes: seq<Inbox>, f: BusFrame): (r: seq<Inbox>)
    ensures |r| == |boxes| && forall i | 0 <= i < |boxes| :: r[i] == Sent(boxes[i], f)
  {
    seq(|boxes|, i requires 0 <= i < |boxes| => Sent(boxes[i], f))
  }

  predicate AnyAccepts(boxes: seq<Inbox>) {
    exists i | 0 <= i < |boxes| :: Accepts(boxes[i])
  }

  // ---- The route table ----

  /** Every subscriber handles only variants the channel has. */
  predicate AllKnown(names: seq<string>, handled: seq<seq<string>>) {
    forall s | 0 <= s < |handled| :: forall k | 0 <= k < |handled[s]| :: handled[s][k] in names
  }

  /** Subscriber `s` declared the variant, as far as its list was gone through. */
  predicate Declared(names: seq<string>, handled: seq<seq<string>>, v: nat, s: nat, upto: nat)
    requires v < |names| && s < |handled| && upto <= |handled[s]|
  {
    names[v] in handled[s][..upto] && names[v] !in names[..v]
  }

  /** Bit `s` of variant `v` is right once subscriber `sub` is gone through up to name `k`. */
  predicate BitRight(targets: seq<bv16>, names: seq<string>, handled: seq<seq<string>>, sub: nat, k: nat, v: nat, s: nat)
    requires v < |names| == |targets| && sub < |handled| && k <= |handled[sub]|
  {
    InMask(targets[v], s) <==>
      if s < sub then Declared(names, handled, v, s, |handled[s]|) else s == sub && Declared(names, handled, v, s, k)
  }

  predicate RoutesUpTo(targets: seq<bv16>, names: seq<string>, handled: seq<seq<string>>, sub: nat, k: nat)
    requires sub < |handled| && k <= |handled[sub]|
  {
    |targets| == |names| && forall v: nat, s: nat | v < |names| && s < 16 :: BitRight(targets, names, handled, sub, k, v, s)
  }

  /** Bit `s` of variant `v` is there exactly when subscriber `s` declared `v`. */
  predicate BitDeclared(targets: seq<bv16>, names: seq<string>, handled: seq<seq<string>>, v: nat, s: nat)
    requires v < |names| == |targets|
  {
    InMask(targets[v], s) <==> s < |handled| && Declared(names, handled, v, s, |handled[s]|)
  }

  predicate Routes(targets: seq<bv16>, names: seq<string>, handled: seq<seq<string>>) {
    |targets| == |names| && forall v: nat, s: nat | v < |names| && s < 16 :: BitDeclared(targets, names, handled, v, s)
  }

  method Position(names: seq<string>, name: string) returns (at: Option<nat>)
    ensures at.Some? ==> at.value < |names| && names[at.value] == name && name !in names[..at.value]
    ensures at.None? ==> name !in names
  {
    for i := 0 to |names|
      invariant name !in names[..i]
    {
      if names[i] == name {
        return Some(i);
      }
    }
    assert names[..|names|] == names;
    return None;
  }

  lemma NoBits(s: nat)
    requires s < 16
    ensures !InMask(0, s)
  {
  }

  lemma NoneYet(targets: seq<bv16>, names: seq<string>, handled: seq<seq<string>>)
    requires |targets| == |names| && forall v | 0 <= v < |targets| :: targets[v] == 0
    ensures handled == [] ==> Routes(targets, names, handled)
    ensures handled != [] ==> RoutesUpTo(targets, names, handled, 0, 0)
  {
    hide InMask;
    forall v: nat, s: nat | v < |names| && s < 16 ensures !InMask(targets[v], s) {
      NoBits(s);
    }
  }

  lemma AddsBit(targets: seq<bv16>, names: seq<string>, handled: seq<seq<string>>, sub: nat, k: nat, at: nat)
    requires sub < |handled| <= 16 && k < |handled[sub]| && RoutesUpTo(targets, names, handled, sub, k)
    requires at < |names| && names[at] == handled[sub][k] && names[at] !in names[..at]
    ensures RoutesUpTo(targets[at := Or(targets[at], Single(sub))], names, handled, sub, k + 1)
  {
    hide InMask, Or, Single, BitRight;
    var t := targets[at := Or(targets[at], Single(sub))];
    var n := k + 1;
    forall v: nat, s: nat | v < |names| && s < 16 ensures BitRight(t, names, handled, sub, n, v, s) {
      assert BitRight(targets, names, handled, sub, k, v, s);
      OneBitRight(targets, names, handled, sub, k, at, v, s);
    }
  }

  lemma OneBitRight(targets: seq<bv16>, names: seq<string>, handled: seq<seq<string>>, sub: nat, k: nat, at: nat, v: nat, s: nat)
    requires sub < |handled| <= 16 && k < |handled[sub]| && v < |names| == |targets| && s < 16
    requires at < |names| && names[at] == handled[sub][k] && names[at] !in names[..at]
    requires BitRight(targets, names, handled, sub, k, v, s)
    ensures BitRight(targets[at := Or(targets[at], Single(sub))], names, handled, sub, k + 1, v, s)
  {
    hide InMask, Or, Single;
    assert handled[sub][..k + 1] == handled[sub][..k] + [handled[sub][k]];
    if v == at {
      AddBit(targets[at], sub, s);
    } else if s == sub && names[v] == names[at] {
      FirstIsOne(names, at, v);
    }
  }

  /** Only the first index of a name counts. */
  lemma FirstIsOne(names: seq<string>, at: nat, v: nat)
    requires at < |names| && v < |names| && v != at && names[v] == names[at] && names[at] !in names[..at]
    ensures names[v] in names[..v]
  {
    if at < v {
      assert names[..v][at] == names[at];
    }
  }

  lemma NextSubscriber(targets: seq<bv16>, names: seq<string>, handled: seq<seq<string>>, sub: nat)
    requires sub < |handled| <= 16 && RoutesUpTo(targets, names, handled, sub, |handled[sub]|)
    ensures sub + 1 < |handled| ==> RoutesUpTo(targets, names, handled, sub + 1, 0)
    ensures sub + 1 == |handled| ==> Routes(targets, names, handled)
  {
    hide InMask;
    var next := sub + 1;
    if next < |handled| {
      forall v: nat, s: nat | v < |names| && s < 16 ensures BitRight(targets, names, handled, next, 0, v, s) {
        assert BitRight(targets, names, handled, sub, |handled[sub]|, v, s);
      }
    } else {
      forall v: nat, s: nat | v < |names| && s < 16 ensures BitDeclared(targets, names, handled, v, s) {
        assert BitRight(targets, names, handled, sub, |handled[sub]|, v, s);
      }
    }
  }

  /** None stands for the panics: too many subscribers, or a name the channel does not have. */
  method BuildRouteTable(names: seq<string>, handled: seq<seq<string>>) returns (table: Option<seq<bv16>>)
    ensures table.Some? <==> |handled| <= MAX_ROUTED_SUBSCRIBERS && AllKnown(names, handled)
    ensures table.Some? ==> Routes(table.value, names, handled)
  {
    hide InMask, Or, Single, Routes, RoutesUpTo;
    if |handled| > MAX_ROUTED_SUBSCRIBERS {
      return None;
    }
    var targets: seq<bv16> := seq(|names|, _ => 0);
    NoneYet(targets, names, handled);
    var sub := 0;
    while sub < |handled|
      invariant 0 <= sub <= |handled| && |targets| == |names|
      invariant sub < |handled| ==> RoutesUpTo(targets, names, handled, sub, 0)
      invariant sub == |handled| ==> Routes(targets, names, handled)
      invariant forall s | 0 <= s < sub :: forall k | 0 <= k < |handled[s]| :: handled[s][k] in names
    {
      var k := 0;
      while k < |handled[sub]|
        invariant 0 <= k <= |handled[sub]| && |targets| == |names| && RoutesUpTo(targets, names, handled, sub, k)
        invariant forall j | 0 <= j < k :: handled[sub][j] in names
      {
        var at := Position(names, handled[sub][k]);
        if at.None? {
          return None;
        }
        AddsBit(targets, names, handled, sub, k, at.value);
        targets := targets[at.value := Or(targets[at.value], Single(sub))];
        k := k + 1;
      }
      NextSubscriber(targets, names, handled, sub);
      sub := sub + 1;
    }
    return Some(targets);
  }

  function MaskFor(targets: seq<bv16>, variant: nat): bv16 {
    if variant < |targets| then targets[variant] else 0
  }

  // ---- The state of the bus ----

  datatype State = State(commands: seq<Inbox>, confirmations: seq<Inbox>, unrouted: nat, rejectedDropped: nat)

  function Rejected(s: State, c: Command, synthetic: Synthetic): State {
    match synthetic(c)
    case None => s
    case Some(f) =>
      s.(confirmations := FannedOut(s.confirmations, f),
         rejectedDropped := if AnyAccepts(s.confirmations) then s.rejectedDropped else s.rejectedDropped + 1)
  }

  function Dispatched(s: State, f: BusFrame, targets: seq<bv16>, synthetic: Synthetic): State {
    if !f.CommandFrame? then s
    else
      var mask := MaskFor(targets, f.command.variant);
      if mask == 0 then Rejected(s.(unrouted := s.unrouted + 1), f.command, synthetic)
      else
        var t := s.(commands := Targeted(s.commands, mask, f));
        if SomeAccepts(s.commands, mask) then t else Rejected(t, f.command, synthetic)
  }

  function DispatchedAll(s: State, fs: seq<BusFrame>, targets: seq<bv16>, synthetic: Synthetic): State {
    if fs == [] then s
    else Dispatched(DispatchedAll(s, fs[..|fs| - 1], targets, synthetic), fs[|fs| - 1], targets, synthetic)
  }

  // ---- The walk over the bits ----

  /** The inboxes of the set have the frame, but for those whose bits are left. */
  predicate Partly(was: seq<Inbox>, now: seq<Inbox>, mask: bv16, left: bv16, f: BusFrame) {
    && |now| == |was|
    && (forall i: nat | i < 16 :: InMask(left, i) ==> InMask(mask, i))
    && forall i: nat | i < |was| :: now[i] == if InMask(mask, i) && !InMask(left, i) then Sent(was[i], f) else was[i]
  }

  predicate NoneTook(was: seq<Inbox>, mask: bv16, left: bv16) {
    forall i: nat | i < |was| :: InMask(mask, i) && !InMask(left, i) ==> !Accepts(was[i])
  }

  lemma PartlyAtFirst(was: seq<Inbox>, mask: bv16, f: BusFrame)
    ensures Partly(was, was, mask, mask, f) && NoneTook(was, mask, mask)
  {
  }

  lemma MovesOn(m: bv16)
    requires m != 0
    ensures TrailingZeros(m, 0) < TrailingZeros(WithoutLowest(m), 0)
  {
    hide InMask, WithoutLowest;
    NonzeroHasBit(m);
    var i, j := TrailingZeros(m, 0), TrailingZeros(WithoutLowest(m), 0);
    if j <= i {
      LowestCleared(m, j);
    }
  }

  lemma PartlyNext(was: seq<Inbox>, now: seq<Inbox>, mask: bv16, left: bv16, f: BusFrame, i: nat)
    requires Partly(was, now, mask, left, f) && left != 0 && i == TrailingZeros(left, 0) && i < |was|
    ensures now[i] == was[i] && Partly(was, now[i := Sent(now[i], f)], mask, WithoutLowest(left), f)
    ensures NoneTook(was, mask, WithoutLowest(left)) <==> NoneTook(was, mask, left) && !Accepts(was[i])
  {
    hide InMask, WithoutLowest, Sent, Accepts;
    NonzeroHasBit(left);
    assert InMask(left, i);
    forall j: nat | j < 16 ensures InMask(WithoutLowest(left), j) <==> InMask(left, j) && j != i {
      LowestCleared(left, j);
    }
  }

  /** When no bit is left, or only bits that no inbox has. */
  lemma PartlyAtLast(was: seq<Inbox>, now: seq<Inbox>, mask: bv16, left: bv16, f: BusFrame)
    requires Partly(was, now, mask, left, f) && (left == 0 || TrailingZeros(left, 0) >= |was|)
    ensures now == Targeted(was, mask, f) && (NoneTook(was, mask, left) <==> !SomeAccepts(was, mask))
  {
    hide InMask, Sent, Accepts;
    forall i: nat | i < |was| ensures !InMask(left, i) {
      if left == 0 && i < 16 {
        NoBits(i);
      }
    }
  }

  // ---- The object ----

  class Bus {
    var commands: seq<Inbox>
    var confirmations: seq<Inbox>
    var unrouted: nat
    var rejectedDropped: nat
    var ingress: seq<BusFrame>
    var drained: nat
    const targets: seq<bv16>
    const synthetic: Synthetic

    constructor (commands: seq<Inbox>, confirmations: seq<Inbox>, targets: seq<bv16>, synthetic: Synthetic)
      ensures View() == State(commands, confirmations, 0, 0) && ingress == [] && drained == 0
      ensures this.targets == targets && this.synthetic == synthetic
    {
      this.commands, this.confirmations, this.targets, this.synthetic := commands, confirmations, targets, synthetic;
      unrouted, rejectedDropped, ingress, drained := 0, 0, [], 0;
    }

    ghost function View(): State
      reads this
    {
      State(commands, confirmations, unrouted, rejectedDropped)
    }

    /** Bit by bit from the lowest; the walk stops at a bit that no inbox has. */
    method DeliverToTargets(f: BusFrame, mask: bv16) returns (delivered: nat)
      modifies this`commands
      ensures commands == Targeted(old(commands), mask, f)
      ensures delivered == 0 <==> !SomeAccepts(old(commands), mask)
    {
      hide InMask, WithoutLowest, Sent, Partly, NoneTook;
      delivered := 0;
      var remaining := mask;
      ghost var was, left := commands, mask;
      PartlyAtFirst(was, mask, f);
      while remaining != 0
        invariant left == remaining && Partly(was, commands, mask, left, f) && |commands| == |was|
        invariant delivered == 0 <==> NoneTook(was, mask, left)
        decreases 16 - TrailingZeros(remaining, 0)
      {
        NonzeroHasBit(remaining);
        var i := TrailingZeros(remaining, 0);
        MovesOn(remaining);
        remaining := WithoutLowest(remaining);
        if i >= |commands| {
          break;
        }
        PartlyNext(was, commands, mask, left, f, i);
        left := remaining;
        if Accepts(commands[i]) {
          delivered := delivered + 1;
        }
        commands := commands[i := Sent(commands[i], f)];
      }
      PartlyAtLast(was, commands, mask, left, f);
    }

    method FanOutConfirmation(f: BusFrame) returns (delivered: nat)
      modifies this`confirmations
      ensures confirmations == FannedOut(old(confirmations), f)
      ensures delivered == 0 <==> !AnyAccepts(old(confirmations))
    {
      hide Sent;
      delivered := 0;
      ghost var was := confirmations;
      var i := 0;
      while i < |confirmations|
        invariant 0 <= i <= |confirmations| == |was|
        invariant forall j | 0 <= j < |was| :: confirmations[j] == if j < i then Sent(was[j], f) else was[j]
        invariant delivered == 0 <==> forall j | 0 <= j < i :: !Accepts(was[j])
      {
        if Accepts(confirmations[i]) {
          delivered := delivered + 1;
        }
        confirmations := confirmations[i := Sent(confirmations[i], f)];
        i := i + 1;
      }
    }

    method InjectDeliveryRejected(c: Command)
      modifies this
      ensures View() == Rejected(old(View()), c, synthetic) && ingress == old(ingress) && drained == old(drained)
    {
      hide FannedOut, AnyAccepts;
      var f := synthetic(c);
      if f.None? {
        return;
      }
      var delivered := FanOutConfirmation(f.value);
      if delivered == 0 {
        rejectedDropped := rejectedDropped + 1;
      }
    }

    method DispatchCommand(f: BusFrame)
      modifies this
      ensures View() == Dispatched(old(View()), f, targets, synthetic) && ingress == old(ingress) && drained == old(drained)
    {
      hide Targeted, SomeAccepts, Rejected;
      if !f.CommandFrame? {
        return;
      }
      var mask := MaskFor(targets, f.command.variant);
      if mask == 0 {
        unrouted := unrouted + 1;
        InjectDeliveryRejected(f.command);
        return;
      }
      var delivered := DeliverToTargets(f, mask);
      if delivered == 0 {
        InjectDeliveryRejected(f.command);
      }
    }

    /** One turn takes the frame at hand and at most 31 more, in order, and leaves the rest. */
    method ProcessCommands(first: BusFrame)
      modifies this
      ensures var n := if |old(ingress)| < COMMAND_DRAIN_BATCH - 1 then |old(ingress)| else COMMAND_DRAIN_BATCH - 1;
              && View() == DispatchedAll(old(View()), [first] + old(ingress)[..n], targets, synthetic)
              && ingress == old(ingress)[n..] && drained == old(drained) + n + 1
    {
      hide Dispatched;
      ghost var was, all := View(), ingress;
      DispatchCommand(first);
      var taken := 1;
      ghost var fs := [first];
      assert fs[..0] == [] && [first] + all[..0] == fs;
      while taken < COMMAND_DRAIN_BATCH
        invariant 1 <= taken <= COMMAND_DRAIN_BATCH && taken - 1 <= |all| && ingress == all[taken - 1..] && drained == old(drained)
        invariant fs == [first] + all[..taken - 1] && View() == DispatchedAll(was, fs, targets, synthetic)
      {
        if ingress == [] {
          break;
        }
        var f := ingress[0];
        ingress := ingress[1..];
        taken := taken + 1;
        DispatchCommand(f);
        assert all[..taken - 1] == all[..taken - 2] + [f];
        assert (fs + [f])[..|fs|] == fs;
        fs := fs + [f];
      }
      drained := drained + taken;
    }
  }

  // ---- Exact routing ----

  /** The inboxes that declared a variant. */
  predicate IsTarget(names: seq<string>, handled: seq<seq<string>>, variant: nat, i: nat) {
    variant < |names| && i < |handled| && names[variant] in handled[i]
  }

  predicate NamesDistinct(names: seq<string>) {
    forall i, j | 0 <= i < j < |names| :: names[i] != names[j]
  }

  lemma MaskIsTargets(targets: seq<bv16>, names: seq<string>, handled: seq<seq<string>>, variant: nat, i: nat)
    requires Routes(targets, names, handled) && NamesDistinct(names) && |handled| <= 16
    ensures InMask(MaskFor(targets, variant), i) <==> IsTarget(names, handled, variant, i)
  {
    hide InMask;
    if i < 16 {
      if variant < |names| {
        assert BitDeclared(targets, names, handled, variant, i);
        if i < |handled| {
          assert handled[i][..|handled[i]|] == handled[i];
        }
      } else {
        NoBits(i);
      }
    }
  }

  lemma MaskIsEmpty(m: bv16)
    ensures m == 0 <==> forall i: nat | i < 16 :: !InMask(m, i)
  {
    hide InMask;
    if m == 0 {
      forall i: nat | i < 16 ensures !InMask(m, i) {
        NoBits(i);
      }
    } else {
      NonzeroHasBit(m);
    }
  }

  /** The inbox took the frame if it was offered and there was room, and counted it as lost if there was none. */
  predicate Took(was: Inbox, now: Inbox, f: BusFrame, offered: bool) {
    if !offered then now == was
    else if was.open && |was.contents| < was.capacity then
      now == was.(contents := was.contents + [f], delivered := was.delivered + 1)
    else now == was.(overflow := was.overflow + 1)
  }

  /**
   A command lands once in each inbox that declared it and has room, and nowhere else; one that no
   inbox declared is counted. If none takes it, the synthetic rejection is offered once to every
   confirmation inbox, and counted as dropped if none of those takes it either; otherwise the
   confirmations are left alone.
   */
  lemma ExactRouting(s: State, c: Command, targets: seq<bv16>, names: seq<string>, handled: seq<seq<string>>, synthetic: Synthetic)
    requires Routes(targets, names, handled) && NamesDistinct(names) && |s.commands| == |handled| <= 16
    ensures var f := CommandFrame(c);
            var r := Dispatched(s, f, targets, synthetic);
            var known := exists i | 0 <= i < |handled| :: IsTarget(names, handled, c.variant, i);
            var taken := exists i | 0 <= i < |s.commands| :: IsTarget(names, handled, c.variant, i) && Accepts(s.commands[i]);
            var rejected := !taken && synthetic(c).Some?;
            && |r.commands| == |s.commands| && |r.confirmations| == |s.confirmations|
            && (forall i | 0 <= i < |s.commands| ::
                  Took(s.commands[i], r.commands[i], f, IsTarget(names, handled, c.variant, i)))
            && r.unrouted == s.unrouted + (if known then 0 else 1)
            && (forall i | 0 <= i < |s.confirmations| ::
                  Took(s.confirmations[i], r.confirmations[i], if rejected then synthetic(c).value else f, rejected))
            && r.rejectedDropped == s.rejectedDropped + if rejected && !AnyAccepts(s.confirmations) then 1 else 0
  {
    hide InMask, AnyAccepts, Routes, IsTarget;
    var mask := MaskFor(targets, c.variant);
    forall i: nat ensures InMask(mask, i) <==> IsTarget(names, handled, c.variant, i) {
      MaskIsTargets(targets, names, handled, c.variant, i);
    }
    MaskIsEmpty(mask);
    OnlyHandled(names, handled, c.variant);
  }

  lemma OnlyHandled(names: seq<string>, handled: seq<seq<string>>, variant: nat)
    ensures forall i: nat | IsTarget(names, handled, variant, i) :: i < |handled|
  {
  }

  // ---- Whole turns ----

  /** The commands of a turn that an inbox declared, in order. */
  function For(fs: seq<BusFrame>, names: seq<string>, handled: seq<seq<string>>, i: nat): seq<BusFrame> {
    if fs == [] then []
    else
      var last := fs[|fs| - 1];
      For(fs[..|fs| - 1], names, handled, i)
      + if last.CommandFrame? && IsTarget(names, handled, last.command.variant, i) then [last] else []
  }

  function Room(b: Inbox): nat {
    if b.open && |b.contents| < b.capacity then b.capacity - |b.contents| else 0
  }

  /** The inbox has the first of the frames, as many as it had room for, and counted the others as lost. */
  predicate Filled(was: Inbox, now: Inbox, fs: seq<BusFrame>) {
    var n := if |fs| < Room(was) then |fs| else Room(was);
    now == was.(contents := was.contents + fs[..n], delivered := was.delivered + n, overflow := was.overflow + |fs| - n)
  }

  lemma FilledNext(was: Inbox, now: Inbox, fs: seq<BusFrame>, f: BusFrame, next: Inbox)
    requires Filled(was, now, fs) && Took(now, next, f, true)
    ensures Filled(was, next, fs + [f])
  {
    if |fs| < Room(was) {
      assert fs[..|fs|] == fs && (fs + [f])[..|fs| + 1] == fs + [f];
    } else {
      assert (fs + [f])[..Room(was)] == fs[..Room(was)];
    }
  }

  /** Over any sequence of frames every inbox gets the commands it declared, in order, up to its room. */
  lemma {:induction false} TurnsDeliverInOrder(s: State, fs: seq<BusFrame>, targets: seq<bv16>, names: seq<string>,
                                               handled: seq<seq<string>>, synthetic: Synthetic, i: nat)
    requires Routes(targets, names, handled) && NamesDistinct(names) && |s.commands| == |handled| <= 16 && i < |s.commands|
    ensures var r := DispatchedAll(s, fs, targets, synthetic);
            |r.commands| == |s.commands| && Filled(s.commands[i], r.commands[i], For(fs, names, handled, i))
    decreases |fs|
  {
    hide Dispatched, Routes, NamesDistinct, IsTarget, Filled, Took;
    if fs == [] {
      NothingFilled(s.commands[i]);
    } else {
      var rest, last := fs[..|fs| - 1], fs[|fs| - 1];
      TurnsDeliverInOrder(s, rest, targets, names, handled, synthetic, i);
      var mid := DispatchedAll(s, rest, targets, synthetic);
      var end := Dispatched(mid, last, targets, synthetic);
      if last.CommandFrame? {
        ExactRouting(mid, last.command, targets, names, handled, synthetic);
        if IsTarget(names, handled, last.command.variant, i) {
          FilledNext(s.commands[i], mid.commands[i], For(rest, names, handled, i), last, end.commands[i]);
        } else {
          NotOffered(mid.commands[i], end.commands[i], last);
          assert For(fs, names, handled, i) == For(rest, names, handled, i);
        }
      } else {
        NotRouted(mid, last, targets, synthetic);
        assert For(fs, names, handled, i) == For(rest, names, handled, i);
      }
    }
  }

  lemma NothingFilled(b: Inbox)
    ensures Filled(b, b, [])
  {
  }

  lemma NotOffered(was: Inbox, now: Inbox, f: BusFrame)
    requires Took(was, now, f, false)
    ensures now == was
  {
  }

  lemma NotRouted(s: State, f: BusFrame, targets: seq<bv16>, synthetic: Synthetic)
    requires !f.CommandFrame?
    ensures Dispatched(s, f, targets, synthetic) == s
  {
  }
}
