/** The single-producer, single-consumer ring (ring.rs): the object, and its steps interleaved. */
module Ring {
  import opened Wrappers

  function Next(i: nat, cap: nat): nat {
    if i + 1 >= cap then 0 else i + 1
  }

  // ---- The object ----

  class SpscRing<T(0)> {
    const slots: array<T>
    var head: nat
    var tail: nat

    ghost predicate Valid()
      reads this, slots
    {
      slots.Length >= 1 && head < slots.Length && tail < slots.Length
    }

    /** The items between tail and head, round the end of the array. */
    ghost function Contents(): (s: seq<T>)
      requires Valid()
      reads this, slots
    {
      if tail <= head then slots[tail..head] else slots[tail..] + slots[..head]
    }

    constructor (cap: nat)
      requires cap >= 1
      ensures fresh(slots) && slots.Length == cap && Valid() && Contents() == []
    {
      slots := new T[cap];
      head, tail := 0, 0;
    }

    /** Room for one item less than there are slots. */
    method TryPush(item: T) returns (ok: bool)
      requires Valid()
      modifies this`head, slots
      ensures Valid() && ok == (|old(Contents())| < slots.Length - 1)
      ensures Contents() == if ok then old(Contents()) + [item] else old(Contents())
    {
      var next := Next(head, slots.Length);
      if next == tail {
        return false;
      }
      slots[head] := item;
      head := next;
      return true;
    }

    method TryPop() returns (item: Option<T>)
      requires Valid()
      modifies this`tail
      ensures Valid() && item.Some? == (old(Contents()) != [])
      ensures item.Some? ==> old(Contents()) == [item.value] + Contents()
      ensures item.None? ==> Contents() == []
    {
      if tail == head {
        return None;
      }
      item := Some(slots[tail]);
      tail := Next(tail, slots.Length);
    }
  }

  // ---- The steps ----

  /** Where the producer is: idle, with head and tail read, or with the slot written. */
  datatype Producer<T> = PIdle | PRead(item: T, tail: nat, popped: nat) | PWritten(item: T, next: nat)

  /** Where the consumer is; it knows the head it read. */
  datatype Consumer<T> = CIdle | CRead(head: nat, pushed: nat) | CTaken(item: T)

  /** The shared ring, both ends, and what has been accepted and delivered so far. */
  datatype Shared<T> = Shared(
    cap: nat,
    slots: seq<T>,
    head: nat,
    tail: nat,
    producer: Producer<T>,
    consumer: Consumer<T>,
    accepted: seq<T>,
    delivered: seq<T>)

  datatype Move<T> = StartPush(item: T) | CheckAndWrite | StoreHead | StartPop | CheckAndTake | StoreTail

  /** One atomic step of either end; a move that does not fit where that end is does nothing. */
  function Step<T>(s: Shared<T>, m: Move<T>): Shared<T>
    requires s.head < |s.slots| && s.tail < |s.slots|
  {
    match m
    case StartPush(item) =>
      if s.producer.PIdle? then s.(producer := PRead(item, s.tail, |s.delivered|)) else s
    case CheckAndWrite =>
      if !s.producer.PRead? then s
      else if Next(s.head, s.cap) == s.producer.tail then s.(producer := PIdle)
      else s.(slots := s.slots[s.head := s.producer.item], producer := PWritten(s.producer.item, Next(s.head, s.cap)))
    case StoreHead =>
      if !s.producer.PWritten? then s
      else s.(head := s.producer.next, producer := PIdle, accepted := s.accepted + [s.producer.item])
    case StartPop =>
      if s.consumer.CIdle? then s.(consumer := CRead(s.head, |s.accepted|)) else s
    case CheckAndTake =>
      if !s.consumer.CRead? then s
      else if s.tail == s.consumer.head then s.(consumer := CIdle)
      else s.(consumer := CTaken(s.slots[s.tail]))
    case StoreTail =>
      if !s.consumer.CTaken? then s
      else s.(tail := Next(s.tail, s.cap), consumer := CIdle, delivered := s.delivered + [s.consumer.item])
  }

  /** The slot item number `i` goes to. */
  function SlotOf(i: nat, cap: nat): (k: nat)
    requires cap >= 1
    ensures k < cap
    decreases i
  {
    if i < cap then i else SlotOf(i - cap, cap)
  }

  /** How many items are in flight. */
  function Count<T>(s: Shared<T>): int {
    |s.accepted| - |s.delivered|
  }

  predicate Inv<T(==)>(s: Shared<T>) {
    && s.cap >= 1 && |s.slots| == s.cap
    && s.head == SlotOf(|s.accepted|, s.cap) && s.tail == SlotOf(|s.delivered|, s.cap)
    && 0 <= Count(s) < s.cap
    && s.delivered == s.accepted[..|s.delivered|]
    && (forall i: nat | |s.delivered| <= i < |s.accepted| :: s.slots[SlotOf(i, s.cap)] == s.accepted[i])
    && (match s.producer
        case PIdle => true
        case PRead(_, tail, popped) =>
          popped <= |s.delivered| && |s.accepted| - popped < s.cap && tail == SlotOf(popped, s.cap)
        case PWritten(item, next) =>
          next == Next(s.head, s.cap) && Count(s) + 1 < s.cap && s.slots[s.head] == item)
    && (match s.consumer
        case CIdle => true
        case CRead(head, pushed) => |s.delivered| <= pushed <= |s.accepted| && head == SlotOf(pushed, s.cap)
        case CTaken(item) => |s.delivered| < |s.accepted| && item == s.accepted[|s.delivered|])
  }

  // ---- Slots ----

  lemma {:induction false} NextSlot(n: nat, cap: nat)
    requires cap >= 1
    ensures Next(SlotOf(n, cap), cap) == SlotOf(n + 1, cap)
    decreases n
  {
    if n >= cap {
      NextSlot(n - cap, cap);
    } else if n + 1 == cap {
      assert SlotOf(n + 1, cap) == SlotOf(0, cap);
    }
  }

  lemma RoundSlot(i: nat, cap: nat)
    requires cap >= 1
    ensures SlotOf(i + cap, cap) == SlotOf(i, cap)
  {
  }

  /** Two indices less than a round apart fall on the same slot only if they are the same. */
  lemma {:induction false} SameSlot(a: nat, b: nat, cap: nat)
    requires cap >= 1 && a <= b < a + cap && SlotOf(a, cap) == SlotOf(b, cap)
    ensures a == b
    decreases b
  {
    if a >= cap {
      SameSlot(a - cap, b - cap, cap);
    }
  }

  // ---- Every step keeps the invariant ----

  lemma WriteKeeps<T>(s: Shared<T>)
    requires Inv(s) && s.producer.PRead?
    ensures Inv(Step(s, CheckAndWrite))
  {
    var p, d := |s.accepted|, |s.delivered|;
    NextSlot(p, s.cap);
    if Next(s.head, s.cap) != s.producer.tail {
      RoundSlot(s.producer.popped, s.cap);
      assert p + 1 - s.producer.popped < s.cap;
      forall i: nat | d <= i < p ensures SlotOf(i, s.cap) != s.head {
        if SlotOf(i, s.cap) == s.head {
          SameSlot(i, p, s.cap);
        }
      }
    }
  }

  lemma HeadKeeps<T>(s: Shared<T>)
    requires Inv(s) && s.producer.PWritten?
    ensures Inv(Step(s, StoreHead))
  {
    hide SlotOf, Next;
    var r := Step(s, StoreHead);
    NextSlot(|s.accepted|, s.cap);
    assert r.accepted[..|r.delivered|] == s.accepted[..|s.delivered|];
  }

  lemma TakeKeeps<T>(s: Shared<T>)
    requires Inv(s) && s.consumer.CRead?
    ensures Inv(Step(s, CheckAndTake))
  {
    if s.tail != s.consumer.head {
      assert |s.delivered| < |s.accepted|;
    }
  }

  lemma TailKeeps<T>(s: Shared<T>)
    requires Inv(s) && s.consumer.CTaken?
    ensures Inv(Step(s, StoreTail))
  {
    hide SlotOf, Next;
    var r := Step(s, StoreTail);
    NextSlot(|s.delivered|, s.cap);
    assert s.accepted[..|s.delivered| + 1] == s.accepted[..|s.delivered|] + [s.accepted[|s.delivered|]];
  }

  /** The items on their way, as a queue. */
  function Queue<T>(s: Shared<T>): seq<T>
    requires |s.delivered| <= |s.accepted|
  {
    s.accepted[|s.delivered|..]
  }

  /**
   Each step is a step of a queue of capacity `cap - 1`: storing the head appends the pushed item,
   storing the tail takes the first one, and nothing else changes it.
   */
  lemma StepRefines<T>(s: Shared<T>, m: Move<T>)
    requires Inv(s)
    ensures var r := Step(s, m);
            && Inv(r) && |Queue(r)| <= s.cap - 1
            && (if m.StoreHead? && s.producer.PWritten? then Queue(r) == Queue(s) + [s.producer.item]
                else if m.StoreTail? && s.consumer.CTaken? then Queue(s) == [s.consumer.item] + Queue(r)
                else Queue(r) == Queue(s))
  {
    hide Inv, SlotOf, Next;
    InvBounds(s);
    StepKeeps(s, m);
    InvBounds(Step(s, m));
    QueueSteps(s, m);
  }

  lemma InvBounds<T>(s: Shared<T>)
    requires Inv(s)
    ensures s.head < |s.slots| && s.tail < |s.slots| && 0 <= Count(s) < s.cap
    ensures s.consumer.CTaken? ==> |s.delivered| < |s.accepted| && s.consumer.item == s.accepted[|s.delivered|]
  {
  }

  lemma QueueSteps<T>(s: Shared<T>, m: Move<T>)
    requires s.head < |s.slots| && s.tail < |s.slots| && 0 <= Count(s) && Count(Step(s, m)) >= 0
    requires s.consumer.CTaken? ==> |s.delivered| < |s.accepted| && s.consumer.item == s.accepted[|s.delivered|]
    ensures var r := Step(s, m);
            if m.StoreHead? && s.producer.PWritten? then Queue(r) == Queue(s) + [s.producer.item]
            else if m.StoreTail? && s.consumer.CTaken? then Queue(s) == [s.consumer.item] + Queue(r)
            else Queue(r) == Queue(s)
  {
    hide Next;
  }

  lemma StepKeeps<T>(s: Shared<T>, m: Move<T>)
    requires Inv(s)
    ensures Inv(Step(s, m))
  {
    hide SlotOf, Next;
    match m
    case CheckAndWrite =>
      if s.producer.PRead? {
        WriteKeeps(s);
      }
    case StoreHead =>
      if s.producer.PWritten? {
        HeadKeeps(s);
      }
    case CheckAndTake =>
      if s.consumer.CRead? {
        TakeKeeps(s);
      }
    case StoreTail =>
      if s.consumer.CTaken? {
        TailKeeps(s);
      }
    case StartPush(_) =>
    case StartPop =>
  }

  function Run<T>(s: Shared<T>, moves: seq<Move<T>>): (r: Shared<T>)
    requires Inv(s)
    ensures Inv(r)
    decreases |moves|
  {
    if moves == [] then s
    else
      StepRefines(s, moves[0]);
      Run(Step(s, moves[0]), moves[1..])
  }

  /** An empty ring, whatever its slots held. */
  function Empty<T>(slots: seq<T>): Shared<T> {
    Shared(|slots|, slots, 0, 0, PIdle, CIdle, [], [])
  }

  lemma EmptyRing<T>(slots: seq<T>)
    requires slots != []
    ensures Inv(Empty(slots))
  {
  }

  lemma {:induction false} RunKeepsCap<T>(s: Shared<T>, moves: seq<Move<T>>)
    requires Inv(s)
    ensures Run(s, moves).cap == s.cap
    decreases |moves|
  {
    hide SlotOf;
    if moves != [] {
      StepRefines(s, moves[0]);
      RunKeepsCap(Step(s, moves[0]), moves[1..]);
    }
  }

  /**
   From an empty ring on, in every interleaving, the consumer gets the accepted items in order, none
   twice and none made up, and all but one slot can be in use.
   */
  lemma NothingLostOrReordered<T>(slots: seq<T>, moves: seq<Move<T>>)
    requires slots != []
    ensures Inv(Empty(slots))
    ensures var r := Run(Empty(slots), moves);
            r.delivered == r.accepted[..|r.delivered|] && |r.accepted| - |r.delivered| <= |slots| - 1
  {
    EmptyRing(slots);
    RunKeepsCap(Empty(slots), moves);
  }

  /** A push is refused only when the queue was full as the tail was read, a pop only when it was empty as the head was read. */
  lemma RefusalsAreHonest<T>(s: Shared<T>)
    requires Inv(s)
    ensures s.producer.PRead? ==>
              (Step(s, CheckAndWrite).producer.PIdle? <==> |s.accepted| - s.producer.popped == s.cap - 1)
    ensures s.consumer.CRead? ==>
              (Step(s, CheckAndTake).consumer.CIdle? <==> s.consumer.pushed == |s.delivered|)
  {
    if s.producer.PRead? {
      var p, q := |s.accepted|, s.producer.popped;
      NextSlot(p, s.cap);
      if SlotOf(p + 1, s.cap) == SlotOf(q, s.cap) {
        if p + 1 - q < s.cap {
          SameSlot(q, p + 1, s.cap);
        }
      }
      RoundSlot(q, s.cap);
    }
    if s.consumer.CRead? && s.tail == s.consumer.head {
      SameSlot(|s.delivered|, s.consumer.pushed, s.cap);
    }
  }
}
