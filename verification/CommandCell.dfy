/** The command cell between a task and the interrupt (command.rs): the object, and its steps interleaved. */
module CommandCell {
  import opened Wrappers
  import opened HalfBits

  datatype Command = Command(data: seq<bv8>, len: nat, expects: bool, minIdle: nat, restartGate: nat, exchange: nat)

  predicate Fits(c: Command) {
    |c.data| == DATA_LEN && 0 < c.len <= MAX_DATA_HALF_BITS
  }

  // ---- The object ----

  class AtomicCommandCell {
    var started: bool
    const data: array<bv8>
    var len: nat
    var expects: bool
    var minIdle: nat
    var restartGate: nat
    var exchange: nat

    ghost predicate Valid()
      reads this, data
    {
      data.Length == DATA_LEN
    }

    /** The command waiting to be taken. */
    ghost function Waiting(): Option<Command>
      reads this, data
    {
      if started then Some(Command(data[..], len, expects, minIdle, restartGate, exchange)) else None
    }

    constructor ()
      ensures fresh(data) && Valid() && Waiting() == None
    {
      data := new bv8[DATA_LEN](_ => 0);
      started, len, expects, minIdle, restartGate, exchange := false, 0, false, 0, 0, 0;
    }

    /** Accepted when it fits and nothing waits; a refused command leaves the waiting one alone. */
    method SendPackedTx(c: Command) returns (ok: bool)
      requires Valid() && |c.data| == DATA_LEN
      modifies this, data
      ensures Valid() && ok == (Fits(c) && old(Waiting()) == None)
      ensures Waiting() == if ok then Some(c) else old(Waiting())
    {
      if c.len == 0 || c.len > MAX_DATA_HALF_BITS {
        return false;
      }
      if started {
        return false;
      }
      for i := 0 to DATA_LEN
        invariant data[..i] == c.data[..i] && !started
      {
        data[i] := c.data[i];
      }
      expects := c.expects;
      minIdle := c.minIdle;
      restartGate := c.restartGate;
      exchange := c.exchange;
      len := c.len;
      started := true;
      assert data[..] == data[..DATA_LEN] == c.data;
      return true;
    }

    method TakeCommand() returns (c: Option<Command>)
      requires Valid()
      modifies this
      ensures Valid() && c == old(Waiting()) && Waiting() == None
    {
      if !started {
        return None;
      }
      c := Some(Command(data[..], len, expects, minIdle, restartGate, exchange));
      started := false;
    }
  }

  // ---- The steps ----

  /** A command as the words that are stored and loaded one at a time. */
  type Words = w: seq<int> | |w| == WORDS witness seq(WORDS, _ => 0)
  const WORDS := DATA_LEN + 5

  /** The order in which the interrupt loads them: the length first. */
  function LoadOrder(k: nat): nat {
    if k == 0 then WORDS - 1 else k - 1
  }

  /** The task checks the state, stores word by word, and flips the state; a send may be refused at both ends. */
  datatype Sender = SIdle | Storing(words: Words, stored: nat)

  /** The interrupt checks the state, loads word by word, and flips it back. */
  datatype Taker = TIdle | Loading(loaded: seq<int>)

  datatype Shared = Shared(cell: Words, started: bool, sender: Sender, taker: Taker, accepted: seq<Words>, taken: seq<Words>)

  datatype Move = BeginSend(words: Words) | StoreWord | FlipToStarted | BeginTake | LoadWord | FlipToIdle

  function Reordered(loaded: seq<int>): Words
    requires |loaded| == WORDS
  {
    loaded[1..] + [loaded[0]]
  }

  function Step(s: Shared, m: Move): Shared {
    match m
    case BeginSend(words) => if s.sender.SIdle? && !s.started then s.(sender := Storing(words, 0)) else s
    case StoreWord =>
      if s.sender.Storing? && s.sender.stored < WORDS then
        s.(cell := s.cell[s.sender.stored := s.sender.words[s.sender.stored]], sender := s.sender.(stored := s.sender.stored + 1))
      else s
    case FlipToStarted =>
      if s.sender.Storing? && s.sender.stored == WORDS then
        if s.started then s.(sender := SIdle)
        else s.(started := true, sender := SIdle, accepted := s.accepted + [s.sender.words])
      else s
    case BeginTake => if s.taker.TIdle? && s.started then s.(taker := Loading([])) else s
    case LoadWord =>
      if s.taker.Loading? && |s.taker.loaded| < WORDS then
        s.(taker := Loading(s.taker.loaded + [s.cell[LoadOrder(|s.taker.loaded|)]]))
      else s
    case FlipToIdle =>
      if s.taker.Loading? && |s.taker.loaded| == WORDS then
        s.(started := false, taker := TIdle, taken := s.taken + [Reordered(s.taker.loaded)])
      else s
  }

  /** At most one command waits; while one does nobody stores, so every word loaded is its own. */
  predicate Inv(s: Shared) {
    && (if s.started then s.accepted != [] && s.taken == s.accepted[..|s.accepted| - 1] && s.cell == s.accepted[|s.accepted| - 1]
        else s.taken == s.accepted && s.taker.TIdle?)
    && (s.sender.Storing? ==>
          !s.started && s.sender.stored <= WORDS && s.cell[..s.sender.stored] == s.sender.words[..s.sender.stored])
    && (s.taker.Loading? ==>
          s.started && |s.taker.loaded| <= WORDS
          && forall k | 0 <= k < |s.taker.loaded| :: s.taker.loaded[k] == s.cell[LoadOrder(k)])
  }

  lemma StepKeeps(s: Shared, m: Move)
    requires Inv(s)
    ensures Inv(Step(s, m))
  {
    hide Reordered;
    match m
    case FlipToStarted => FlipToStartedKeeps(s);
    case FlipToIdle => FlipToIdleKeeps(s);
    case StoreWord => StoreWordKeeps(s);
    case BeginSend(_) =>
    case BeginTake =>
    case LoadWord =>
  }

  lemma FlipToStartedKeeps(s: Shared)
    requires Inv(s)
    ensures Inv(Step(s, FlipToStarted))
  {
    hide Reordered, LoadOrder;
    if s.sender.Storing? && s.sender.stored == WORDS {
      assert s.cell[..WORDS] == s.cell && s.sender.words[..WORDS] == s.sender.words;
      assert (s.accepted + [s.sender.words])[..|s.accepted|] == s.accepted;
    }
  }

  /** Loaded in the interrupt's order and put back, the words are those of the cell. */
  lemma FlipToIdleKeeps(s: Shared)
    requires Inv(s)
    ensures Inv(Step(s, FlipToIdle))
  {
    if s.taker.Loading? && |s.taker.loaded| == WORDS {
      var r := Reordered(s.taker.loaded);
      forall k | 0 <= k < WORDS ensures r[k] == s.cell[k] {
        if k < WORDS - 1 {
          assert r[k] == s.taker.loaded[k + 1] == s.cell[LoadOrder(k + 1)];
        } else {
          assert r[k] == s.taker.loaded[0] == s.cell[LoadOrder(0)];
        }
      }
      assert r == s.cell;
      assert s.accepted == s.accepted[..|s.accepted| - 1] + [s.accepted[|s.accepted| - 1]];
    }
  }

  lemma StoreWordKeeps(s: Shared)
    requires Inv(s)
    ensures Inv(Step(s, StoreWord))
  {
    hide Reordered, LoadOrder;
    if s.sender.Storing? && s.sender.stored < WORDS {
      var n := s.sender.stored;
      assert s.cell[n := s.sender.words[n]][..n + 1] == s.cell[..n] + [s.sender.words[n]];
      assert s.sender.words[..n + 1] == s.sender.words[..n] + [s.sender.words[n]];
    }
  }

  function Run(s: Shared, moves: seq<Move>): Shared
    decreases |moves|
  {
    if moves == [] then s else Run(Step(s, moves[0]), moves[1..])
  }

  lemma {:induction false} RunKeeps(s: Shared, moves: seq<Move>)
    requires Inv(s)
    ensures Inv(Run(s, moves))
    decreases |moves|
  {
    hide Step, Inv;
    if moves != [] {
      StepKeeps(s, moves[0]);
      RunKeeps(Step(s, moves[0]), moves[1..]);
    }
  }

  /** An idle cell, whatever its words are. */
  function Fresh(cell: Words): Shared {
    Shared(cell, false, SIdle, TIdle, [], [])
  }

  lemma FreshCell(cell: Words)
    ensures Inv(Fresh(cell))
  {
  }

  /**
   From an idle cell on, in every interleaving, each accepted command is taken once, in order, with
   all its words from the same send.
   */
  lemma EachCommandOnce(cell: Words, moves: seq<Move>)
    ensures var r := Run(Fresh(cell), moves);
            Inv(r) && (if r.started then r.taken == r.accepted[..|r.accepted| - 1] else r.taken == r.accepted)
  {
    hide Step, Run;
    FreshCell(cell);
    RunKeeps(Fresh(cell), moves);
  }

  /** The state is still idle when a send gets to flip it, so an accepted send never turns out refused. */
  lemma FlipSucceeds(s: Shared)
    requires Inv(s) && s.sender.Storing? && s.sender.stored == WORDS
    ensures Step(s, FlipToStarted).accepted == s.accepted + [s.sender.words]
  {
  }
}
