/**
 Loads on other threads racing one writer over a slot's served bank (slice_store_core.rs).
 A load is a snapshot, two header reads, chunk reads and a compare-exchange, interleaved in any
 way with the byte-wise steps of a writer's sessions.
 */
module ServedRace {
  import opened Wrappers
  import opened SliceLayout
  import opened BankFormat
  import opened SlotMachine
  import opened CrashConsistency
  import opened UnprovedWrite

  /** What a load has read of one bank's header; `intact` until an erase of that bank starts. */
  datatype Peek = Unread | Read(header: Option<BankHeader>, intact: bool)

  /** A load in flight; `commits` and `moves` count what happened to `served` before its snapshot. */
  datatype LoadOp = LoadOp(
    seen: Served, commits: nat, moves: nat, peek0: Peek, peek1: Peek, trying: Option<Bank>, got: seq<u8>)
  {
    function PeekOf(b: Bank): Peek {
      if b == 0 then peek0 else peek1
    }

    /** The header of bank `b`, if one was read that a load considers. */
    function HeaderFrom(b: Bank): Option<BankHeader> {
      if PeekOf(b).Read? then PeekOf(b).header else None
    }

    /** Newest first, as `candidate_banks` sorts them. */
    function Order(): seq<Bank> {
      match (HeaderFrom(0), HeaderFrom(1))
      case (Some(h0), Some(h1)) => if h1.seqNo > h0.seqNo then [1, 0] else [0, 1]
      case (Some(_), None) => [0]
      case (None, Some(_)) => [1]
      case (None, None) => []
    }

    function Dimmed(b: Bank): LoadOp {
      if PeekOf(b).Unread? then this
      else if b == 0 then this.(peek0 := peek0.(intact := false))
      else this.(peek1 := peek1.(intact := false))
    }
  }

  /**
   The slot, the true count of commits since boot, how often `served` has changed its bank, the
   loads in flight, and what the session was given.
   */
  datatype Race = Race(slot: Slot, commits: nat, moves: nat, loads: map<nat, LoadOp>, register: Register)

  datatype RaceAction =
    | Write(step: Action)
    | StartLoad(id: nat)
    | PeekHeader(id: nat)
    | ReadChunk(id: nat, size: nat)
    | ReadFails(id: nat)
    | Check(id: nat)

  function Peeked(b: seq<u8>): Peek {
    Read(if Candidate(b) then Some(Decode(b).value) else None, true)
  }

  /** The bank whose erase the writer's next step starts. */
  function StartsErasing(s: Slot, a: Action): Option<Bank> {
    if a.EraseStep? && s.phase.Erasing? && s.phase.pos == 0 && s.disk.At(s.phase.s.target) != []
    then Some(s.phase.s.target)
    else if a.StaleStep? && s.phase.ErasingStale? && s.phase.pos == 0 && s.phase.s.stale.Some?
            && s.disk.At(s.phase.s.stale.value) != []
    then s.phase.s.stale
    else None
  }

  predicate Commits(s: Slot, a: Action) {
    a.HeaderStep? && s.phase.WritingHeader? && s.phase.pos >= BANK_HEADER_BYTES
  }

  function DimAll(loads: map<nat, LoadOp>, b: Option<Bank>): map<nat, LoadOp> {
    map id | id in loads :: if b.Some? then loads[id].Dimmed(b.value) else loads[id]
  }

  function Moves(moves: nat, s: Slot, s': Slot): nat {
    if s'.served.bank == s.served.bank then moves else moves + 1
  }

  /** A power cut ends every load with the program. */
  function WriterStep(crc: Crc, r: Race, a: Action): Race {
    var s := Step(crc, r.slot, a);
    Race(s,
         if a.PowerCut? then 0 else if Commits(r.slot, a) then r.commits + 1 else r.commits,
         Moves(r.moves, r.slot, s),
         if a.PowerCut? then map[] else DimAll(r.loads, StartsErasing(r.slot, a)),
         RegisterStep(crc, r.register, r.slot, a))
  }

  /** The compare-exchange at the end of a load. */
  function Exchange(s: Slot, op: LoadOp, b: Bank): Slot {
    s.(served := s.served.ReadUnlessMoved(op.seen, b))
  }

  function AfterPeek(d: Disk, op: LoadOp): LoadOp {
    if op.peek0.Unread? then op.(peek0 := Peeked(d.bank0))
    else if op.peek1.Unread? then
      var full := op.(peek1 := Peeked(d.bank1));
      full.(trying := if full.Order() == [] then None else Some(full.Order()[0]))
    else op
  }

  function AfterChunk(d: Disk, op: LoadOp, size: nat): LoadOp
    requires op.trying.Some? && op.HeaderFrom(op.trying.value).Some?
  {
    var b := d.At(op.trying.value);
    var len := op.HeaderFrom(op.trying.value).value.len;
    var upTo := if |op.got| + size < len then |op.got| + size else len;
    if |op.got| <= upTo && BANK_HEADER_BYTES + upTo <= |b|
    then op.(got := op.got + b[BANK_HEADER_BYTES + |op.got|..BANK_HEADER_BYTES + upTo])
    else op
  }

  predicate Trying(op: LoadOp) {
    op.trying.Some? && op.HeaderFrom(op.trying.value).Some?
  }

  function Started(r: Race): LoadOp {
    LoadOp(r.slot.served, r.commits, r.moves, Unread, Unread, None, [])
  }

  /** The loads when load `id` is done with the bank it tries: it goes on to the older one or ends. */
  function GivenUp(loads: map<nat, LoadOp>, id: nat): map<nat, LoadOp>
    requires id in loads
  {
    var op := loads[id];
    if Trying(op) && op.Order() == [op.trying.value, 1 - op.trying.value]
    then loads[id := op.(trying := Some(1 - op.trying.value), got := [])]
    else loads - {id}
  }

  function RaceStep(crc: Crc, r: Race, a: RaceAction): Race {
    match a
    case Write(step) => WriterStep(crc, r, step)
    case StartLoad(id) =>
      if id in r.loads then r else r.(loads := r.loads[id := Started(r)])
    case PeekHeader(id) =>
      if id !in r.loads then r else r.(loads := r.loads[id := AfterPeek(r.slot.disk, r.loads[id])])
    case ReadChunk(id, size) =>
      if id !in r.loads || !Trying(r.loads[id]) then r
      else r.(loads := r.loads[id := AfterChunk(r.slot.disk, r.loads[id], size)])
    case ReadFails(id) =>
      if id !in r.loads then r else r.(loads := GivenUp(r.loads, id))
    case Check(id) =>
      if id !in r.loads || !Trying(r.loads[id]) then r
      else
        var op := r.loads[id];
        var h := op.HeaderFrom(op.trying.value).value;
        if |op.got| < h.len then r
        else if crc(0, op.got) == h.crc then
          var s := Exchange(r.slot, op, op.trying.value);
          r.(slot := s, moves := Moves(r.moves, r.slot, s), loads := r.loads - {id})
        else r.(loads := GivenUp(r.loads, id))
  }

  // ---- What a run may do ----

  /** The load's compare-exchange would still succeed. */
  predicate Matches(r: Race, op: LoadOp) {
    op.commits == r.commits && op.seen.bank == r.slot.served.bank
  }

  /** The bytes a load has got are the payload bytes of `b`. */
  predicate GotFrom(b: seq<u8>, op: LoadOp) {
    BANK_HEADER_BYTES + |op.got| <= |b| && op.got == b[BANK_HEADER_BYTES..BANK_HEADER_BYTES + |op.got|]
  }

  /** By the headers it has read, the load tries bank `v` first, and what it has of `v` is still there. */
  predicate Prefers(d: Disk, v: Bank, op: LoadOp) {
    && Candidate(d.At(v))
    && (op.HeaderFrom(1 - v).Some? ==> op.HeaderFrom(1 - v).value.seqNo < SeqOf(d.At(v)))
    && (op.PeekOf(v).Read? ==> op.PeekOf(v).header == Some(Decode(d.At(v)).value))
    && (op.trying.Some? ==> op.trying == Some(v) && GotFrom(d.At(v), op))
  }

  /** The load has no header of bank `b`, or will serve the served bank before it. */
  predicate Spares(s: Slot, b: Bank, op: LoadOp) {
    op.HeaderFrom(b).None? || (s.served.bank == Some(1 - b) && Prefers(s.disk, 1 - b, op))
  }

  /** An erase starts only on a bank that is not served and that every load that still matches spares. */
  predicate Quiet(r: Race, a: Action) {
    var b := StartsErasing(r.slot, a);
    b.Some? ==>
      && r.slot.served.bank != b
      && forall id | id in r.loads && Matches(r, r.loads[id]) :: Spares(r.slot, b.value, r.loads[id])
  }

  /**
   Erases start quietly, sequence numbers do not run out, no load outlives 2^24 commits, and a
   load that still matches can read the served bank.
   */
  predicate Allowed(k: nat, r: Race, a: RaceAction) {
    match a
    case Write(step) => (step.BeginWrite? ==> k + 1 < SEQ_LIMIT) && Quiet(r, step)
    case Check(id) => id in r.loads ==> r.commits - r.loads[id].commits < GENERATIONS
    case ReadFails(id) =>
      id in r.loads && Matches(r, r.loads[id]) && r.loads[id].trying.Some? ==>
        r.loads[id].trying != r.slot.served.bank
    case _ => true
  }

  // ---- The invariant ----

  /** A session's header is newer than the one in the bank it spares. */
  predicate Later(k: nat, s: Slot, ss: Session) {
    && (Candidate(s.disk.At(1 - ss.target)) ==> SeqOf(s.disk.At(1 - ss.target)) < ss.seqNo)
    && (ss.stale.Some? ==> ss.stale.value == 1 - ss.target)
    && ss.seqNo <= k
  }

  predicate PhaseStands(crc: Crc, n: nat, k: nat, s: Slot, given: seq<u8>)
    requires Sized(n, s.disk)
  {
    match s.phase
    case Idle => true
    case Erasing(ss, pos) =>
      && Later(k, s, ss) && pos <= n && IsBlank(s.disk.At(ss.target)[..pos])
      && ss.written == 0 && ss.crc == 0 && !ss.failed && given == []
    case Open(ss) =>
      && Later(k, s, ss)
      && (if ss.failed then IsBlank(s.disk.At(ss.target)[..BANK_HEADER_BYTES])
          else Holds(crc, n, s, ss, given, [], 0))
    case Appending(ss, chunk, pos) =>
      && Later(k, s, ss) && pos <= |chunk| && BANK_HEADER_BYTES + ss.written + |chunk| <= n
      && Holds(crc, n, s, ss, given, chunk[..pos], 0)
    case WritingHeader(ss, pos) =>
      Later(k, s, ss) && pos <= BANK_HEADER_BYTES && Holds(crc, n, s, ss, given, [], pos)
    case ErasingStale(ss, pos) =>
      && Later(k, s, ss) && ss.stale.Some? && s.served.bank == Some(ss.target)
      && Holds(crc, n, s, ss, given, [], BANK_HEADER_BYTES)
      && pos <= n && IsBlank(s.disk.At(1 - ss.target)[..pos])
  }

  /** The writer's side: what the crash invariant says of the disk, and a served bank passes. */
  predicate SlotInv(crc: Crc, n: nat, k: nat, s: Slot, given: seq<u8>) {
    && Sized(n, s.disk) && Sequenced(k, s.disk)
    && (s.erased.Some? ==> s.phase.Idle? && IsBlank(s.disk.At(s.erased.value))
                           && s.served.bank == Some(1 - s.erased.value))
    && (s.served.bank.Some? ==> Valid(crc, s.disk.At(s.served.bank.value)))
    && PhaseStands(crc, n, k, s, given)
  }

  /** A header that a load read still describes the bank. */
  predicate Fresh(crc: Crc, b: seq<u8>, h: BankHeader) {
    && Candidate(b) && SeqOf(b) == h.seqNo && Decode(b).value.len == h.len
    && (crc(0, Payload(b)) == h.crc ==> Valid(crc, b))
  }

  /** The load cannot pass its check with bank `b` while that bank does not pass. */
  predicate Harmless(crc: Crc, s: Slot, b: Bank, op: LoadOp) {
    || Spares(s, b, op)
    || (op.HeaderFrom(b).Some? && Fresh(crc, s.disk.At(b), op.HeaderFrom(b).value)
        && (op.trying == Some(b) ==> GotFrom(s.disk.At(b), op)))
  }

  /** While no load has moved `served` since this one began. */
  predicate Tracks(crc: Crc, d: Disk, v: Bank, op: LoadOp) {
    && Candidate(d.At(v))
    && (op.PeekOf(v).Read? ==> op.PeekOf(v).header == Some(Decode(d.At(v)).value))
    && (op.HeaderFrom(1 - v).Some? ==>
          if op.PeekOf(1 - v).intact then Fresh(crc, d.At(1 - v), op.HeaderFrom(1 - v).value)
          else op.HeaderFrom(1 - v).value.seqNo < SeqOf(d.At(v)))
    && (op.trying.Some? ==> GotFrom(d.At(op.trying.value), op))
    && (op.trying == Some(1 - v) ==>
          op.HeaderFrom(1 - v).Some? && op.HeaderFrom(1 - v).value.seqNo >= SeqOf(d.At(v)))
  }

  /** The stages of a load follow each other. */
  predicate Shaped(op: LoadOp) {
    && (op.peek0.Unread? ==> op.peek1.Unread?)
    && (op.peek1.Unread? ==> op.trying.None?)
    && (if op.trying.None? then op.got == []
        else op.HeaderFrom(op.trying.value).Some? && |op.got| <= op.HeaderFrom(op.trying.value).value.len)
  }

  predicate MatchInv(crc: Crc, r: Race, op: LoadOp) {
    && (op.moves == r.moves ==>
          && op.seen.bank == r.slot.served.bank
          && (op.seen.bank.Some? ==> Tracks(crc, r.slot.disk, op.seen.bank.value, op)))
    && (r.slot.phase.ErasingStale? ==> op.moves == r.moves)
    && (op.seen.bank == r.slot.served.bank ==>
          forall b: Bank :: Some(b) != r.slot.served.bank && !Valid(crc, r.slot.disk.At(b)) ==>
                              Harmless(crc, r.slot, b, op))
  }

  predicate LoadInv(crc: Crc, r: Race, op: LoadOp) {
    && Shaped(op) && op.commits <= r.commits && op.moves <= r.moves
    && op.seen.generation == op.commits % GENERATIONS
    && (r.slot.served.bank.None? ==> op.seen.bank.None?)
    && (op.commits == r.commits ==> MatchInv(crc, r, op))
  }

  predicate RaceInv(crc: Crc, n: nat, k: nat, r: Race) {
    && SlotInv(crc, n, k, r.slot, r.register.building)
    && r.slot.served.generation == r.commits % GENERATIONS
    && forall id | id in r.loads :: LoadInv(crc, r, r.loads[id])
  }

  // ---- The writer's side ----

  /** A header byte changes nothing that a load has read, and keeps a valid bank valid. */
  predicate HeaderGrows(crc: Crc, b: seq<u8>, b': seq<u8>) {
    && |b'| == |b| >= BANK_HEADER_BYTES && b'[BANK_HEADER_BYTES..] == b[BANK_HEADER_BYTES..]
    && (Candidate(b) ==> Candidate(b') && SeqOf(b') == SeqOf(b) && Decode(b').value.len == Decode(b).value.len)
    && (Valid(crc, b) ==> b' == b)
  }

  /** What one step of the writer does to a bank. */
  predicate Effect(crc: Crc, s: Slot, s': Slot, a: Action, b: Bank) {
    && |s'.disk.At(b)| == |s.disk.At(b)|
    && (|| StartsErasing(s, a) == Some(b)
        || s'.disk.At(b) == s.disk.At(b)
        || !Candidate(s.disk.At(b))
        || HeaderGrows(crc, s.disk.At(b), s'.disk.At(b)))
  }

  lemma WriterEffect(crc: Crc, n: nat, k: nat, s: Slot, given: seq<u8>, a: Action, b: Bank)
    requires SlotInv(crc, n, k, s, given)
    ensures Effect(crc, s, Step(crc, s, a), a, b)
  {
    hide Decode, Encode, LoadBank, LoadResult, Candidates, Newest, Staged, ProgramByte, EraseByte, IsBlank, HeaderOf;
    hide HeaderGrows;
    match a
    case EraseStep => EraseEffect(crc, n, k, s, given, b);
    case StaleStep => StaleEffect(crc, n, k, s, given, b);
    case AppendStep => AppendEffect(crc, n, k, s, given, b);
    case HeaderStep => HeaderEffect(crc, n, k, s, given, b);
    case _ =>
  }

  lemma EraseEffect(crc: Crc, n: nat, k: nat, s: Slot, given: seq<u8>, b: Bank)
    requires SlotInv(crc, n, k, s, given)
    ensures Effect(crc, s, Step(crc, s, EraseStep), EraseStep, b)
  {
    hide Decode, Encode, EraseByte, HeaderGrows, Valid;
    if s.phase.Erasing? && 0 < s.phase.pos {
      var bank := s.disk.At(s.phase.s.target);
      assert bank[0] == bank[..s.phase.pos][0];
      ErasedFirstByte(bank);
    }
  }

  lemma StaleEffect(crc: Crc, n: nat, k: nat, s: Slot, given: seq<u8>, b: Bank)
    requires SlotInv(crc, n, k, s, given)
    ensures Effect(crc, s, Step(crc, s, StaleStep), StaleStep, b)
  {
    hide Decode, Encode, EraseByte, HeaderGrows, Valid;
    if s.phase.ErasingStale? && 0 < s.phase.pos {
      var bank := s.disk.At(1 - s.phase.s.target);
      assert bank[0] == bank[..s.phase.pos][0];
      ErasedFirstByte(bank);
    }
  }

  lemma AppendEffect(crc: Crc, n: nat, k: nat, s: Slot, given: seq<u8>, b: Bank)
    requires SlotInv(crc, n, k, s, given)
    ensures Effect(crc, s, Step(crc, s, AppendStep), AppendStep, b)
  {
    hide Decode, Encode, ProgramByte, HeaderGrows, Valid;
    if s.phase.Appending? {
      ErasedFirstByte(s.disk.At(s.phase.s.target));
    }
  }

  lemma HeaderEffect(crc: Crc, n: nat, k: nat, s: Slot, given: seq<u8>, b: Bank)
    requires SlotInv(crc, n, k, s, given)
    ensures Effect(crc, s, Step(crc, s, HeaderStep), HeaderStep, b)
  {
    hide Decode, Encode, ProgramByte, Staged, HeaderGrows;
    if s.phase.WritingHeader? {
      var WritingHeader(ss, pos) := s.phase;
      if pos < BANK_HEADER_BYTES {
        assert given + [] == given;
        StageHeaderByte(n, HeaderOf(ss), given, pos);
        StagedGrows(crc, n, HeaderOf(ss), given, pos);
      }
    }
  }

  lemma StagedGrows(crc: Crc, n: nat, h: BankHeader, data: seq<u8>, cut: nat)
    requires cut < BANK_HEADER_BYTES && BANK_HEADER_BYTES + |data| <= n <= MAX_BANK_BYTES
    requires h.len == |data| && h.crc == crc(0, data)
    ensures HeaderGrows(crc, Staged(n, h, data, cut), Staged(n, h, data, cut + 1))
  {
    hide Decode, Encode;
    var body := data + Blank(n - BANK_HEADER_BYTES - |data|);
    var b, b' := Staged(n, h, data, cut), Staged(n, h, data, cut + 1);
    assert body[..h.len] == data;
    TornHeader(crc, h, body, cut);
    TornHeader(crc, h, body, cut + 1);
    assert b[BANK_HEADER_BYTES..] == body && b'[BANK_HEADER_BYTES..] == body;
    if Candidate(b) {
      TornTail(h, body, cut);
      TornTail(h, body, cut + 1);
    }
    if Valid(crc, b) {
      FullStays(h, body, cut);
    }
  }

  /** Where the torn header already equals the whole one, the next byte changes nothing. */
  lemma FullStays(h: BankHeader, body: seq<u8>, cut: nat)
    requires cut < BANK_HEADER_BYTES && TornBank(h, body, cut) == Encode(h) + body
    ensures TornBank(h, body, cut + 1) == TornBank(h, body, cut)
  {
    hide Encode;
    var b, b' := TornBank(h, body, cut), TornBank(h, body, cut + 1);
    forall i | 0 <= i < |b| ensures b'[i] == b[i] {
      if i == cut {
        assert b'[i] == Encode(h)[cut] == (Encode(h) + body)[cut];
      }
    }
  }

  /** A bank that passes stays as it is unless its erase starts. */
  lemma ValidStays(crc: Crc, s: Slot, s': Slot, a: Action, b: Bank)
    requires Effect(crc, s, s', a, b) && StartsErasing(s, a) != Some(b) && Valid(crc, s.disk.At(b))
    ensures s'.disk.At(b) == s.disk.At(b)
  {
    hide Decode, StartsErasing;
  }

  /** The slot and a register for which the crash invariant says the same of the disk. */
  function Plain(s: Slot): Slot {
    s.(loaded := true,
       served := if s.phase.Idle? || s.phase.ErasingStale? then s.served else Served(s.served.generation, None))
  }

  function Anything(crc: Crc, s: Slot, given: seq<u8>): Register {
    Register(if s.phase.ErasingStale? then {Some(given)}
             else {None, LoadResult(crc, s.disk), Alone(crc, s.disk, 0), Alone(crc, s.disk, 1), Some(given)},
             given)
  }

  lemma SlotIsConsistent(crc: Crc, n: nat, k: nat, s: Slot, given: seq<u8>)
    requires SlotInv(crc, n, k, s, given)
    ensures Inv(crc, n, k, Plain(s), Anything(crc, s, given))
  {
    hide Decode, Encode, LoadResult, Staged, HeaderOf, IsBlank;
  }

  /** The writer's step does the same to the disk whoever is served, but for the choice of a bank. */
  lemma PlainStep(crc: Crc, s: Slot, given: seq<u8>, a: Action)
    ensures var s', p := Step(crc, s, a), Step(crc, Plain(s), a);
            p.disk == s'.disk && p.phase == s'.phase && p.erased == s'.erased
    ensures RegisterStep(crc, Anything(crc, s, given), Plain(s), a).building
         == RegisterStep(crc, Register({}, given), s, a).building
  {
    hide Decode, Encode, LoadBank, LoadResult, Newest, NextSeq, Staged, ProgramByte, EraseByte, IsBlank, HeaderOf;
  }

  /** What the crash invariant says of a disk carries over to any slot with that disk and a served bank that passes. */
  lemma ConsistentIsSlot(crc: Crc, n: nat, k: nat, p: Slot, reg: Register, s: Slot)
    requires Inv(crc, n, k, p, reg) && s.disk == p.disk && s.phase == p.phase && s.erased == p.erased
    requires s.served.bank.Some? ==> Valid(crc, s.disk.At(s.served.bank.value))
    requires s.erased.Some? ==> s.served.bank == Some(1 - s.erased.value)
    requires s.phase.ErasingStale? ==> s.served.bank == Some(s.phase.s.target)
    ensures SlotInv(crc, n, k, s, reg.building)
  {
    hide Decode, Encode, LoadResult, Staged, HeaderOf, IsBlank, Alone, Valid;
  }

  /** After any step of the writer that does not start to erase it, the served bank passes. */
  lemma ServedAfter(crc: Crc, n: nat, k: nat, s: Slot, given: seq<u8>, a: Action)
    requires SlotInv(crc, n, k, s, given)
    requires StartsErasing(s, a).Some? ==> StartsErasing(s, a) != s.served.bank
    ensures var s' := Step(crc, s, a);
            && (s'.served.bank.Some? ==> Valid(crc, s'.disk.At(s'.served.bank.value)))
            && (s'.erased.Some? ==> s'.served.bank == Some(1 - s'.erased.value))
            && (s'.phase.ErasingStale? ==> s'.served.bank == Some(s'.phase.s.target))
  {
    hide Decode, Encode, LoadResult, LoadBank, Newest, NextSeq, Staged, ProgramByte, EraseByte, HeaderOf;
    hide Effect, Valid, IsBlank, StartsErasing;
    var s' := Step(crc, s, a);
    if Commits(s, a) {
      HeldBank(crc, n, s, s.phase.s, given, BANK_HEADER_BYTES);
    } else if Loads(a) {
      if s.erased.Some? {
        BlankIsInvalid(crc, s.disk.At(s.erased.value));
      }
    } else if !a.PowerCut? && s.served.bank.Some? {
      WriterEffect(crc, n, k, s, given, a, s.served.bank.value);
      ValidStays(crc, s, s', a, s.served.bank.value);
    }
  }

  lemma BlankIsInvalid(crc: Crc, b: seq<u8>)
    requires IsBlank(b)
    ensures !Valid(crc, b)
  {
    hide Decode;
    if BankSized(b) {
      ErasedFirstByte(b);
    }
  }

  lemma WriterKeeps(crc: Crc, n: nat, k: nat, s: Slot, reg: Register, a: Action)
    requires Chains(crc) && SlotInv(crc, n, k, s, reg.building) && (a.BeginWrite? ==> k + 1 < SEQ_LIMIT)
    requires StartsErasing(s, a).Some? ==> StartsErasing(s, a) != s.served.bank
    ensures SlotInv(crc, n, if a.BeginWrite? then k + 1 else k, Step(crc, s, a),
                    RegisterStep(crc, reg, s, a).building)
  {
    hide SlotInv, Inv, Step, Chains, Plain, Anything;
    SlotIsConsistent(crc, n, k, s, reg.building);
    PlainLoaded(s);
    StepKeeps(crc, n, k, Plain(s), Anything(crc, s, reg.building), a);
    PlainStep(crc, s, reg.building, a);
    ServedAfter(crc, n, k, s, reg.building, a);
    ConsistentIsSlot(crc, n, if a.BeginWrite? then k + 1 else k, Step(crc, Plain(s), a),
                     RegisterStep(crc, Anything(crc, s, reg.building), Plain(s), a), Step(crc, s, a));
  }

  lemma PlainLoaded(s: Slot)
    ensures Plain(s).loaded
  {
  }

  // ---- A writer's step and the loads in flight ----

  lemma TracksOther(crc: Crc, d: Disk, d': Disk, v: Bank, op: LoadOp)
    requires Tracks(crc, d, v, op) && d'.At(v) == d.At(v) && !Candidate(d.At(1 - v))
    requires |d'.At(1 - v)| == |d.At(1 - v)|
    ensures Tracks(crc, d', v, op)
  {
    hide Decode;
  }

  lemma TracksErase(crc: Crc, d: Disk, d': Disk, v: Bank, op: LoadOp)
    requires Tracks(crc, d, v, op) && d'.At(v) == d.At(v) && |d'.At(1 - v)| == |d.At(1 - v)|
    requires op.HeaderFrom(1 - v).Some? ==> op.HeaderFrom(1 - v).value.seqNo < SeqOf(d.At(v))
    ensures Tracks(crc, d', v, op.Dimmed(1 - v))
  {
    hide Decode;
  }

  /** A header byte leaves what was read of the bank as fresh as it was. */
  lemma FreshGrows(crc: Crc, b: seq<u8>, b': seq<u8>, h: BankHeader, op: LoadOp)
    requires HeaderGrows(crc, b, b')
    ensures Fresh(crc, b, h) ==> Fresh(crc, b', h)
    ensures GotFrom(b, op) ==> GotFrom(b', op)
  {
    hide Decode;
    if Candidate(b) {
      assert Payload(b) == b[BANK_HEADER_BYTES..][..Decode(b).value.len];
      assert Payload(b') == b'[BANK_HEADER_BYTES..][..Decode(b').value.len];
    }
    if GotFrom(b, op) {
      assert b[BANK_HEADER_BYTES..BANK_HEADER_BYTES + |op.got|] == b[BANK_HEADER_BYTES..][..|op.got|];
      assert b'[BANK_HEADER_BYTES..BANK_HEADER_BYTES + |op.got|] == b'[BANK_HEADER_BYTES..][..|op.got|];
    }
  }

  lemma TracksHeader(crc: Crc, d: Disk, d': Disk, v: Bank, op: LoadOp)
    requires Tracks(crc, d, v, op) && d'.At(v) == d.At(v) && HeaderGrows(crc, d.At(1 - v), d'.At(1 - v))
    ensures Tracks(crc, d', v, op)
  {
    hide Decode, HeaderGrows, Fresh;
    if op.HeaderFrom(1 - v).Some? {
      FreshGrows(crc, d.At(1 - v), d'.At(1 - v), op.HeaderFrom(1 - v).value, op);
    }
  }

  function DimmedBy(op: LoadOp, b: Option<Bank>): LoadOp {
    if b.Some? then op.Dimmed(b.value) else op
  }

  lemma TracksAfter(crc: Crc, s: Slot, s': Slot, a: Action, v: Bank, op: LoadOp)
    requires Effect(crc, s, s', a, 1 - v) && s'.disk.At(v) == s.disk.At(v) && Tracks(crc, s.disk, v, op)
    requires StartsErasing(s, a) != Some(v) && s.served.bank == Some(v)
    requires StartsErasing(s, a).Some? ==> Spares(s, 1 - v, op)
    ensures Tracks(crc, s'.disk, v, DimmedBy(op, StartsErasing(s, a)))
  {
    hide Tracks, HeaderGrows, Decode, StartsErasing;
    if StartsErasing(s, a).Some? {
      TracksErase(crc, s.disk, s'.disk, v, op);
    } else if s'.disk != s.disk {
      if Candidate(s.disk.At(1 - v)) && s'.disk.At(1 - v) != s.disk.At(1 - v) {
        TracksHeader(crc, s.disk, s'.disk, v, op);
      } else {
        TracksOther(crc, s.disk, s'.disk, v, op);
      }
    }
  }

  lemma HarmlessAfter(crc: Crc, s: Slot, s': Slot, a: Action, b: Bank, op: LoadOp)
    requires Effect(crc, s, s', a, b) && s'.served == s.served && Some(b) != s.served.bank
    requires s.served.bank == Some(1 - b) ==> s'.disk.At(1 - b) == s.disk.At(1 - b)
    requires Valid(crc, s.disk.At(b)) || Harmless(crc, s, b, op)
    requires StartsErasing(s, a) == Some(b) ==> Spares(s, b, op)
    requires !Valid(crc, s'.disk.At(b))
    ensures Harmless(crc, s', b, DimmedBy(op, StartsErasing(s, a)))
  {
    hide HeaderGrows, Decode, StartsErasing, Fresh;
    if StartsErasing(s, a) != Some(b) {
      if Valid(crc, s.disk.At(b)) {
        ValidStays(crc, s, s', a, b);
      } else if !Spares(s, b, op) {
        FreshIsCandidate(crc, s.disk.At(b), op.HeaderFrom(b).value);
        if s'.disk.At(b) != s.disk.At(b) {
          FreshGrows(crc, s.disk.At(b), s'.disk.At(b), op.HeaderFrom(b).value, op);
        }
      }
    }
  }

  lemma FreshIsCandidate(crc: Crc, b: seq<u8>, h: BankHeader)
    requires Fresh(crc, b, h)
    ensures Candidate(b)
  {
    hide Decode;
  }

  /** When `served` has just come to bank `v`, no load that matches now can serve a bank that does not pass. */
  lemma AfterMove(crc: Crc, r: Race, r': Race, op: LoadOp)
    requires LoadInv(crc, r, op) && r'.slot.disk == r.slot.disk && !r'.slot.phase.ErasingStale?
    requires r'.slot.served.bank.Some? && r'.slot.served.bank != r.slot.served.bank
    requires r.slot.served.bank.Some? ==> Valid(crc, r.slot.disk.At(r.slot.served.bank.value))
    requires r'.commits == r.commits && r'.moves == r.moves + 1
    ensures LoadInv(crc, r', op)
  {
    hide Valid, Harmless, Tracks;
  }

  /** The writer's own thread loads. */
  predicate Loads(a: Action) {
    a.Load? || a.LoadFrom?
  }

  /** What a step of the writer does to `served`. */
  lemma ServedStep(crc: Crc, s: Slot, a: Action)
    requires !a.PowerCut?
    ensures var s' := Step(crc, s, a);
            && (s'.served.bank.None? ==> s.served.bank.None?)
            && (!Commits(s, a) ==> s'.served.generation == s.served.generation)
            && (!Commits(s, a) && !Loads(a) ==> s'.served == s.served)
            && (Loads(a) ==> s'.disk == s.disk && s'.phase == s.phase && StartsErasing(s, a).None?)
            && (Commits(s, a) ==> s'.served == s.served.Committed(s.phase.s.target))
            && (s'.phase.ErasingStale? ==> s.phase.ErasingStale? || Commits(s, a))
            && (Loads(a) && s'.served.bank != s.served.bank ==> !s.phase.ErasingStale?)
  {
    hide Decode, Encode, LoadBank, LoadResult, Newest, NextSeq, ProgramByte, EraseByte, IsBlank, HeaderOf;
  }

  lemma MatchAfterWrite(crc: Crc, n: nat, k: nat, r: Race, a: Action, op: LoadOp)
    requires SlotInv(crc, n, k, r.slot, r.register.building) && MatchInv(crc, r, op)
    requires !a.PowerCut? && !Loads(a) && !Commits(r.slot, a)
    requires StartsErasing(r.slot, a).Some? ==>
               && StartsErasing(r.slot, a) != r.slot.served.bank
               && (op.seen.bank == r.slot.served.bank ==> Spares(r.slot, StartsErasing(r.slot, a).value, op))
    ensures MatchInv(crc, WriterStep(crc, r, a), DimmedBy(op, StartsErasing(r.slot, a)))
  {
    hide Valid, Harmless, Tracks, Step, StartsErasing, Spares, Effect, PhaseStands;
    var s, s', op' := r.slot, Step(crc, r.slot, a), DimmedBy(op, StartsErasing(r.slot, a));
    ServedStep(crc, s, a);
    WriterEffect(crc, n, k, s, r.register.building, a, 0);
    WriterEffect(crc, n, k, s, r.register.building, a, 1);
    if s.served.bank.Some? {
      ValidStays(crc, s, s', a, s.served.bank.value);
    }
    if op.moves == r.moves && op.seen.bank.Some? {
      TracksAfter(crc, s, s', a, op.seen.bank.value, op);
    }
    if op.seen.bank == s.served.bank {
      forall b: Bank | Some(b) != s.served.bank && !Valid(crc, s'.disk.At(b))
        ensures Harmless(crc, s', b, op')
      {
        HarmlessAfter(crc, s, s', a, b, op);
      }
    }
  }

  lemma LoadsAfterWrite(crc: Crc, n: nat, k: nat, r: Race, a: Action, op: LoadOp)
    requires SlotInv(crc, n, k, r.slot, r.register.building) && LoadInv(crc, r, op) && !a.PowerCut?
    requires StartsErasing(r.slot, a).Some? ==>
               && StartsErasing(r.slot, a) != r.slot.served.bank
               && (Matches(r, op) ==> Spares(r.slot, StartsErasing(r.slot, a).value, op))
    ensures LoadInv(crc, WriterStep(crc, r, a), DimmedBy(op, StartsErasing(r.slot, a)))
  {
    hide Valid, SlotInv, Step, StartsErasing, Spares, MatchInv;
    var r' := WriterStep(crc, r, a);
    ServedStep(crc, r.slot, a);
    if op.commits == r'.commits {
      if Loads(a) {
        LoadsAfterLoad(crc, n, k, r, a, op);
      } else {
        MatchAfterWrite(crc, n, k, r, a, op);
      }
    }
  }

  /** The loads in flight when the writer's own thread loads. */
  lemma LoadsAfterLoad(crc: Crc, n: nat, k: nat, r: Race, a: Action, op: LoadOp)
    requires SlotInv(crc, n, k, r.slot, r.register.building) && LoadInv(crc, r, op) && Loads(a)
    ensures LoadInv(crc, WriterStep(crc, r, a), op)
  {
    hide Valid, Step, StartsErasing, Harmless, Tracks, PhaseStands;
    ServedStep(crc, r.slot, a);
    var r' := WriterStep(crc, r, a);
    if r'.slot.served.bank != r.slot.served.bank {
      AfterMove(crc, r, r', op);
    } else {
      SameSlot(crc, r.slot, r'.slot, op);
    }
  }

  /** Whether a load is harmless depends on the disk and the served bank alone. */
  lemma SameSlot(crc: Crc, s: Slot, s': Slot, op: LoadOp)
    requires s'.disk == s.disk && s'.served.bank == s.served.bank
    ensures forall b: Bank :: Harmless(crc, s, b, op) ==> Harmless(crc, s', b, op)
  {
    hide Decode, Fresh, Prefers, GotFrom;
  }

  // ---- A load's steps ----

  lemma PeekTracks(crc: Crc, d: Disk, v: Bank, op: LoadOp)
    requires Tracks(crc, d, v, op) && Shaped(op) && BankSized(d.bank0) && BankSized(d.bank1)
    ensures Tracks(crc, d, v, AfterPeek(d, op))
  {
    hide Decode;
  }

  lemma PeekHarmless(crc: Crc, s: Slot, b: Bank, op: LoadOp)
    requires Harmless(crc, s, b, op) && Shaped(op) && BankSized(s.disk.bank0) && BankSized(s.disk.bank1)
    ensures Harmless(crc, s, b, AfterPeek(s.disk, op))
  {
    hide Decode;
  }

  lemma ChunkGets(d: Disk, op: LoadOp, size: nat)
    requires Trying(op) && GotFrom(d.At(op.trying.value), op)
    ensures GotFrom(d.At(op.trying.value), AfterChunk(d, op, size))
  {
    var b, op' := d.At(op.trying.value), AfterChunk(d, op, size);
    assert b[BANK_HEADER_BYTES..BANK_HEADER_BYTES + |op'.got|]
        == b[BANK_HEADER_BYTES..BANK_HEADER_BYTES + |op.got|]
           + b[BANK_HEADER_BYTES + |op.got|..BANK_HEADER_BYTES + |op'.got|];
  }

  lemma ChunkKeeps(crc: Crc, r: Race, op: LoadOp, size: nat)
    requires LoadInv(crc, r, op) && Trying(op)
    ensures LoadInv(crc, r, AfterChunk(r.slot.disk, op, size))
  {
    hide Decode, Fresh, Valid, GotFrom;
    if GotFrom(r.slot.disk.At(op.trying.value), op) {
      ChunkGets(r.slot.disk, op, size);
    }
  }

  lemma PeekKeeps(crc: Crc, n: nat, k: nat, r: Race, op: LoadOp)
    requires SlotInv(crc, n, k, r.slot, r.register.building) && LoadInv(crc, r, op)
    ensures LoadInv(crc, r, AfterPeek(r.slot.disk, op))
  {
    hide Decode, Fresh, Valid, GotFrom, Tracks, Harmless, PhaseStands;
    var op' := AfterPeek(r.slot.disk, op);
    if op.moves == r.moves && op.seen.bank.Some? && op.commits == r.commits {
      PeekTracks(crc, r.slot.disk, op.seen.bank.value, op);
    }
    forall b: Bank | Harmless(crc, r.slot, b, op)
      ensures Harmless(crc, r.slot, b, op')
    {
      PeekHarmless(crc, r.slot, b, op);
    }
  }

  lemma StartKeeps(crc: Crc, n: nat, k: nat, r: Race)
    requires SlotInv(crc, n, k, r.slot, r.register.building) && r.slot.served.generation == r.commits % GENERATIONS
    ensures LoadInv(crc, r, Started(r))
  {
    hide Decode, PhaseStands;
  }

  /** A load that reads the served bank as it is passes its check. */
  lemma PrefersPasses(crc: Crc, d: Disk, v: Bank, op: LoadOp)
    requires Prefers(d, v, op) && Valid(crc, d.At(v)) && op.trying == Some(v) && Shaped(op)
    requires |op.got| >= op.HeaderFrom(v).value.len
    ensures crc(0, op.got) == op.HeaderFrom(v).value.crc
  {
    hide Decode;
  }

  lemma TracksPasses(crc: Crc, d: Disk, v: Bank, op: LoadOp)
    requires Tracks(crc, d, v, op) && Valid(crc, d.At(v)) && op.trying == Some(v) && Shaped(op)
    requires |op.got| >= op.HeaderFrom(v).value.len
    ensures crc(0, op.got) == op.HeaderFrom(v).value.crc
  {
    hide Decode;
  }

  /** A bank that a load that still matches would serve passes. */
  lemma CheckedIsValid(crc: Crc, s: Slot, op: LoadOp)
    requires Trying(op) && Shaped(op) && Some(op.trying.value) != s.served.bank
    requires Valid(crc, s.disk.At(op.trying.value)) || Harmless(crc, s, op.trying.value, op)
    requires |op.got| >= op.HeaderFrom(op.trying.value).value.len
    requires crc(0, op.got) == op.HeaderFrom(op.trying.value).value.crc
    ensures Valid(crc, s.disk.At(op.trying.value))
  {
    hide Decode;
    var bank := s.disk.At(op.trying.value);
    if Candidate(bank) && Decode(bank).value.len == |op.got| && GotFrom(bank, op) {
      assert op.got == Payload(bank);
    }
  }

  /** A load that still tracks the served bank does not leave it for an older one. */
  lemma TracksNewer(crc: Crc, d: Disk, v: Bank, op: LoadOp)
    requires Tracks(crc, d, v, op) && op.trying == Some(1 - v)
    ensures Candidate(d.At(1 - v)) && SeqOf(d.At(1 - v)) >= SeqOf(d.At(v))
  {
    hide Decode;
  }

  lemma GivenUpKeeps(crc: Crc, n: nat, k: nat, r: Race, op: LoadOp)
    requires SlotInv(crc, n, k, r.slot, r.register.building) && LoadInv(crc, r, op)
    requires Trying(op) && op.Order() == [op.trying.value, 1 - op.trying.value]
    requires Matches(r, op) && op.trying == r.slot.served.bank ==>
               |op.got| >= op.HeaderFrom(op.trying.value).value.len
               && crc(0, op.got) != op.HeaderFrom(op.trying.value).value.crc
    ensures LoadInv(crc, r, op.(trying := Some(1 - op.trying.value), got := []))
  {
    hide Decode, Tracks, Harmless, PhaseStands, Valid, GotFrom, Fresh;
    var op' := op.(trying := Some(1 - op.trying.value), got := []);
    var d, b := r.slot.disk, op.trying.value;
    if op.commits == r.commits {
      if op.moves == r.moves && op.seen.bank.Some? {
        GivenUpTracks(crc, d, op.seen.bank.value, op);
      }
      if op.seen.bank == r.slot.served.bank {
        forall x: Bank | Harmless(crc, r.slot, x, op) && Some(x) != r.slot.served.bank
          ensures Harmless(crc, r.slot, x, op')
        {
          GivenUpHarmless(crc, r.slot, x, op);
        }
      }
    }
  }

  lemma GivenUpTracks(crc: Crc, d: Disk, v: Bank, op: LoadOp)
    requires Tracks(crc, d, v, op) && Valid(crc, d.At(v)) && Shaped(op) && Trying(op)
    requires op.Order() == [op.trying.value, 1 - op.trying.value]
    requires op.trying == Some(v) ==>
               |op.got| >= op.HeaderFrom(v).value.len && crc(0, op.got) != op.HeaderFrom(v).value.crc
    ensures Tracks(crc, d, v, op.(trying := Some(1 - op.trying.value), got := []))
  {
    hide Decode;
    if op.trying == Some(v) {
      TracksPasses(crc, d, v, op);
    }
  }

  lemma GivenUpHarmless(crc: Crc, s: Slot, b: Bank, op: LoadOp)
    requires Harmless(crc, s, b, op) && Shaped(op) && Trying(op) && Some(b) != s.served.bank
    requires s.served.bank.Some? ==> Valid(crc, s.disk.At(s.served.bank.value))
    requires op.Order() == [op.trying.value, 1 - op.trying.value]
    requires op.trying == s.served.bank ==>
               |op.got| >= op.HeaderFrom(op.trying.value).value.len
               && crc(0, op.got) != op.HeaderFrom(op.trying.value).value.crc
    ensures Harmless(crc, s, b, op.(trying := Some(1 - op.trying.value), got := []))
  {
    hide Decode;
    if s.served.bank == Some(1 - b) && Prefers(s.disk, 1 - b, op) && op.trying == Some(1 - b) {
      PrefersPasses(crc, s.disk, 1 - b, op);
    }
  }

  // ---- The compare-exchange ----

  /** Two counts agree modulo 2^24 exactly when their distance is a multiple of it. */
  lemma SameResidue(a: nat, b: nat)
    requires b <= a
    ensures a % GENERATIONS == b % GENERATIONS <==> (a - b) % GENERATIONS == 0
  {
    var x, y, z := a / GENERATIONS, b / GENERATIONS, (a - b) / GENERATIONS;
    var p, q, t := a % GENERATIONS, b % GENERATIONS, (a - b) % GENERATIONS;
    assert a == GENERATIONS * x + p && b == GENERATIONS * y + q && a - b == GENERATIONS * z + t;
    assert p - q == GENERATIONS * (y + z - x) + t;
  }

  /** The packed words agree exactly when as many commits as the generation counts lie between. */
  lemma MatchIff(served: Served, seen: Served, commits: nat, since: nat)
    requires since <= commits
    requires served.generation == commits % GENERATIONS && seen.generation == since % GENERATIONS
    ensures served == seen <==> (commits - since) % GENERATIONS == 0 && seen.bank == served.bank
  {
    SameResidue(commits, since);
  }

  /** The load's word agrees with `served` exactly when it still matches, unless 2^24 commits have passed. */
  lemma MatchesIff(crc: Crc, n: nat, k: nat, r: Race, op: LoadOp)
    requires RaceInv(crc, n, k, r) && LoadInv(crc, r, op) && r.commits - op.commits < GENERATIONS
    ensures r.slot.served == op.seen <==> Matches(r, op)
  {
    hide SlotInv, MatchInv, Shaped;
    MatchIff(r.slot.served, op.seen, r.commits, op.commits);
    SmallResidue(r.commits - op.commits, GENERATIONS);
  }

  lemma SmallResidue(a: nat, g: nat)
    requires a < g
    ensures a % g == a
  {
  }

  /** A load that passes its check moves `served` to a bank that passes, and never onto a stale one. */
  lemma PassKeeps(crc: Crc, n: nat, k: nat, r: Race, id: nat)
    requires RaceInv(crc, n, k, r) && id in r.loads && Trying(r.loads[id])
    requires r.commits - r.loads[id].commits < GENERATIONS
    requires var op := r.loads[id]; var h := op.HeaderFrom(op.trying.value).value;
             |op.got| >= h.len && crc(0, op.got) == h.crc
    ensures RaceInv(crc, n, k, RaceStep(crc, r, Check(id)))
  {
    hide SlotInv, LoadInv, Valid, Matches;
    var op := r.loads[id];
    var b := op.trying.value;
    assert LoadInv(crc, r, op);
    MatchesIff(crc, n, k, r, op);
    var r' := RaceStep(crc, r, Check(id));
    if r'.slot.served.bank != r.slot.served.bank {
      PassIsSafe(crc, n, k, r, op);
      MovedSlot(crc, n, k, r.slot, r.register.building, b);
      forall i | i in r'.loads
        ensures LoadInv(crc, r', r'.loads[i])
      {
        ServedNow(crc, n, k, r.slot, r.register.building);
        AfterMove(crc, r, r', r.loads[i]);
      }
    } else {
      assert r'.slot == r.slot;
      FewerLoads(crc, r, r');
    }
  }

  lemma PassIsSafe(crc: Crc, n: nat, k: nat, r: Race, op: LoadOp)
    requires SlotInv(crc, n, k, r.slot, r.register.building) && LoadInv(crc, r, op) && Matches(r, op) && Trying(op)
    requires |op.got| >= op.HeaderFrom(op.trying.value).value.len
    requires crc(0, op.got) == op.HeaderFrom(op.trying.value).value.crc
    requires Some(op.trying.value) != r.slot.served.bank
    ensures Valid(crc, r.slot.disk.At(op.trying.value)) && !r.slot.phase.ErasingStale?
  {
    hide Valid, Tracks, Harmless, Decode, Holds;
    CheckedIsValid(crc, r.slot, op);
    if r.slot.phase.ErasingStale? {
      TracksNewer(crc, r.slot.disk, r.slot.served.bank.value, op);
      HeldBank(crc, n, r.slot, r.slot.phase.s, r.register.building, BANK_HEADER_BYTES);
      assert false;
    }
  }

  lemma MovedSlot(crc: Crc, n: nat, k: nat, s: Slot, given: seq<u8>, b: Bank)
    requires SlotInv(crc, n, k, s, given) && Valid(crc, s.disk.At(b)) && Some(b) != s.served.bank
    requires !s.phase.ErasingStale?
    ensures SlotInv(crc, n, k, s.(served := Served(s.served.generation, Some(b))), given)
  {
    hide Decode, Staged;
    if s.erased.Some? {
      BlankIsInvalid(crc, s.disk.At(s.erased.value));
    }
  }

  lemma ServedNow(crc: Crc, n: nat, k: nat, s: Slot, given: seq<u8>)
    requires SlotInv(crc, n, k, s, given)
    ensures s.served.bank.Some? ==> Valid(crc, s.disk.At(s.served.bank.value))
  {
    hide Valid, PhaseStands;
  }

  /** A load is judged by the slot and the counts, not by the other loads. */
  lemma SameRace(crc: Crc, r: Race, r': Race, op: LoadOp)
    requires r'.slot == r.slot && r'.commits == r.commits && r'.moves == r.moves && LoadInv(crc, r, op)
    ensures LoadInv(crc, r', op)
  {
    hide Valid, Tracks, Harmless;
  }

  lemma FewerLoads(crc: Crc, r: Race, r': Race)
    requires r'.slot == r.slot && r'.commits == r.commits && r'.moves == r.moves
    requires forall i | i in r.loads :: LoadInv(crc, r, r.loads[i])
    requires forall i | i in r'.loads :: (i in r.loads && r'.loads[i] == r.loads[i]) || LoadInv(crc, r, r'.loads[i])
    ensures forall i | i in r'.loads :: LoadInv(crc, r', r'.loads[i])
  {
    hide LoadInv;
    forall i | i in r'.loads
      ensures LoadInv(crc, r', r'.loads[i])
    {
      SameRace(crc, r, r', r'.loads[i]);
    }
  }

  lemma GivenUpRace(crc: Crc, n: nat, k: nat, r: Race, id: nat)
    requires RaceInv(crc, n, k, r) && id in r.loads
    requires var op := r.loads[id];
             Trying(op) && Matches(r, op) && op.trying == r.slot.served.bank ==>
               |op.got| >= op.HeaderFrom(op.trying.value).value.len
               && crc(0, op.got) != op.HeaderFrom(op.trying.value).value.crc
    ensures RaceInv(crc, n, k, r.(loads := GivenUp(r.loads, id)))
  {
    hide SlotInv, LoadInv, Matches;
    var op := r.loads[id];
    assert LoadInv(crc, r, op);
    if Trying(op) && op.Order() == [op.trying.value, 1 - op.trying.value] {
      GivenUpKeeps(crc, n, k, r, op);
    }
    FewerLoads(crc, r, r.(loads := GivenUp(r.loads, id)));
  }

  // ---- Every step keeps it ----

  lemma WriteKeepsRace(crc: Crc, n: nat, k: nat, r: Race, a: Action)
    requires Chains(crc) && RaceInv(crc, n, k, r) && Allowed(k, r, Write(a))
    ensures RaceInv(crc, n, if a.BeginWrite? then k + 1 else k, WriterStep(crc, r, a))
  {
    hide SlotInv, LoadInv, Step, RegisterStep, StartsErasing, Spares, Matches, Chains;
    WriterKeeps(crc, n, k, r.slot, r.register, a);
    if a.PowerCut? {
      CutServes(crc, r.slot);
    } else {
      ServedStep(crc, r.slot, a);
      CommitCounts(r.slot.served.generation, r.commits);
      forall id | id in r.loads
        ensures LoadInv(crc, WriterStep(crc, r, a), WriterStep(crc, r, a).loads[id])
      {
        LoadsAfterWrite(crc, n, k, r, a, r.loads[id]);
      }
    }
  }

  lemma CutServes(crc: Crc, s: Slot)
    ensures Step(crc, s, PowerCut).served == Served(0, None)
  {
  }

  lemma CommitCounts(generation: nat, commits: nat)
    requires generation == commits % GENERATIONS
    ensures (generation + 1) % GENERATIONS == (commits + 1) % GENERATIONS
  {
  }

  function Sessions(k: nat, a: RaceAction): nat {
    if a.Write? && a.step.BeginWrite? then k + 1 else k
  }

  lemma RaceStepKeeps(crc: Crc, n: nat, k: nat, r: Race, a: RaceAction)
    requires Chains(crc) && RaceInv(crc, n, k, r) && Allowed(k, r, a)
    ensures RaceInv(crc, n, Sessions(k, a), RaceStep(crc, r, a))
  {
    hide SlotInv, LoadInv, Quiet, WriterStep, Chains, Matches;
    var r' := RaceStep(crc, r, a);
    match a
    case Write(step) =>
      WriteKeepsRace(crc, n, k, r, step);
    case StartLoad(id) =>
      StartKeeps(crc, n, k, r);
      FewerLoads(crc, r, r');
    case PeekHeader(id) =>
      if id in r.loads {
        PeekKeeps(crc, n, k, r, r.loads[id]);
        FewerLoads(crc, r, r');
      }
    case ReadChunk(id, size) =>
      if id in r.loads && Trying(r.loads[id]) {
        ChunkKeeps(crc, r, r.loads[id], size);
        FewerLoads(crc, r, r');
      }
    case ReadFails(id) =>
      if id in r.loads {
        GivenUpRace(crc, n, k, r, id);
      }
    case Check(id) =>
      CheckKeeps(crc, n, k, r, id);
  }

  lemma CheckKeeps(crc: Crc, n: nat, k: nat, r: Race, id: nat)
    requires RaceInv(crc, n, k, r) && Allowed(k, r, Check(id))
    ensures RaceInv(crc, n, k, RaceStep(crc, r, Check(id)))
  {
    hide SlotInv, LoadInv, Matches;
    if id in r.loads && Trying(r.loads[id]) {
      var op := r.loads[id];
      var h := op.HeaderFrom(op.trying.value).value;
      if |op.got| >= h.len {
        if crc(0, op.got) == h.crc {
          PassKeeps(crc, n, k, r, id);
        } else {
          GivenUpRace(crc, n, k, r, id);
        }
      }
    }
  }

  // ---- Whole interleavings ----

  function RaceExec(crc: Crc, r: Race, run: seq<RaceAction>): Race
    decreases |run|
  {
    if run == [] then r else RaceExec(crc, RaceStep(crc, r, run[0]), run[1..])
  }

  predicate AllAllowed(crc: Crc, k: nat, r: Race, run: seq<RaceAction>)
    decreases |run|
  {
    run == [] ||
    (Allowed(k, r, run[0]) && AllAllowed(crc, Sessions(k, run[0]), RaceStep(crc, r, run[0]), run[1..]))
  }

  /** No step of the run changes a byte of the bank served before it. */
  predicate Spared(crc: Crc, r: Race, run: seq<RaceAction>)
    decreases |run|
  {
    run == [] ||
    (var r' := RaceStep(crc, r, run[0]);
     && (r.slot.served.bank.Some? ==>
           r'.slot.disk.At(r.slot.served.bank.value) == r.slot.disk.At(r.slot.served.bank.value))
     && Spared(crc, r', run[1..]))
  }

  /** Whatever is served passes. */
  predicate ServesValid(crc: Crc, s: Slot) {
    s.served.bank.Some? ==> Valid(crc, s.disk.At(s.served.bank.value))
  }

  /** A slot between sessions; a slot on erased flash is one. */
  predicate AtRest(crc: Crc, n: nat, k: nat, s: Slot) {
    && s.phase.Idle? && Sized(n, s.disk) && Sequenced(k, s.disk) && ServesValid(crc, s)
    && s.served.generation < GENERATIONS
    && (s.erased.Some? ==> IsBlank(s.disk.At(s.erased.value)) && s.served.bank == Some(1 - s.erased.value))
  }

  function StartRace(crc: Crc, s: Slot): Race {
    Race(s, s.served.generation, 0, map[], Register({LoadResult(crc, s.disk)}, []))
  }

  lemma BlankIsAtRest(crc: Crc, n: nat)
    requires BANK_HEADER_BYTES <= n <= MAX_BANK_BYTES
    ensures AtRest(crc, n, 0, BlankSlot(n))
  {
    hide Decode;
    ErasedFirstByte(Blank(n));
  }

  lemma RestStarts(crc: Crc, n: nat, k: nat, s: Slot)
    requires AtRest(crc, n, k, s)
    ensures RaceInv(crc, n, k, StartRace(crc, s))
  {
    hide Decode, Valid, Sequenced;
  }

  /** Short of a power cut and of the writer's own moves, no step changes a byte of the served bank. */
  lemma StepSparesServed(crc: Crc, n: nat, k: nat, r: Race, a: RaceAction)
    requires RaceInv(crc, n, k, r) && Allowed(k, r, a) && r.slot.served.bank.Some?
    ensures RaceStep(crc, r, a).slot.disk.At(r.slot.served.bank.value) == r.slot.disk.At(r.slot.served.bank.value)
  {
    hide LoadInv, Step, RegisterStep, Decode, Spares, Matches, StartsErasing, Effect, PhaseStands;
    if a.Write? {
      WriterEffect(crc, n, k, r.slot, r.register.building, a.step, r.slot.served.bank.value);
      ValidStays(crc, r.slot, Step(crc, r.slot, a.step), a.step, r.slot.served.bank.value);
    }
  }

  /**
   Under every allowed interleaving whatever `served` names passes, and no step changes a byte of
   the bank it names.
   */
  lemma {:induction false} ServedStaysValid(crc: Crc, n: nat, k: nat, r: Race, run: seq<RaceAction>)
    requires Chains(crc) && RaceInv(crc, n, k, r) && AllAllowed(crc, k, r, run)
    ensures ServesValid(crc, RaceExec(crc, r, run).slot) && Spared(crc, r, run)
    decreases |run|
  {
    hide SlotInv, LoadInv, RaceStep, Quiet, Chains, Allowed;
    if run == [] {
      ServedNow(crc, n, k, r.slot, r.register.building);
    } else {
      RaceStepKeeps(crc, n, k, r, run[0]);
      if r.slot.served.bank.Some? {
        StepSparesServed(crc, n, k, r, run[0]);
      }
      ServedStaysValid(crc, n, Sessions(k, run[0]), RaceStep(crc, r, run[0]), run[1..]);
    }
  }

  /** From any slot between sessions, whatever the writer and the loads do, failing writes and power cuts included. */
  lemma ServedIsSafe(crc: Crc, n: nat, k: nat, s: Slot, run: seq<RaceAction>)
    requires Chains(crc) && AtRest(crc, n, k, s) && AllAllowed(crc, k, StartRace(crc, s), run)
    ensures ServesValid(crc, RaceExec(crc, StartRace(crc, s), run).slot) && Spared(crc, StartRace(crc, s), run)
  {
    hide AtRest, AllAllowed, Chains;
    RestStarts(crc, n, k, s);
    ServedStaysValid(crc, n, k, StartRace(crc, s), run);
  }

  /** A load that a commit has overtaken leaves `served` alone. */
  lemma SlowLoadIsIgnored(crc: Crc, n: nat, k: nat, r: Race, id: nat)
    requires RaceInv(crc, n, k, r) && id in r.loads
    requires 0 < r.commits - r.loads[id].commits < GENERATIONS
    ensures RaceStep(crc, r, Check(id)).slot == r.slot
  {
    hide SlotInv, LoadInv;
    MatchesIff(crc, n, k, r, r.loads[id]);
  }

  /** The erase of a superseded bank needs no load waited for. */
  lemma StaleIsQuiet(crc: Crc, n: nat, k: nat, r: Race)
    requires RaceInv(crc, n, k, r)
    ensures Quiet(r, StaleStep)
  {
    hide Decode, LoadInv, Valid, Tracks, Spares, Holds;
    var b := StartsErasing(r.slot, StaleStep);
    if b.Some? {
      HeldBank(crc, n, r.slot, r.slot.phase.s, r.register.building, BANK_HEADER_BYTES);
      forall id | id in r.loads && Matches(r, r.loads[id])
        ensures Spares(r.slot, b.value, r.loads[id])
      {
        TrackedInStale(crc, r, r.loads[id]);
        TrackedSpares(crc, r.slot, 1 - b.value, r.loads[id]);
      }
    }
  }

  lemma TrackedInStale(crc: Crc, r: Race, op: LoadOp)
    requires LoadInv(crc, r, op) && Matches(r, op) && r.slot.phase.ErasingStale? && r.slot.served.bank.Some?
    ensures Tracks(crc, r.slot.disk, r.slot.served.bank.value, op)
  {
    hide Tracks, Valid, Harmless;
  }

  /** A load that tracks the newer bank spares the older one. */
  lemma TrackedSpares(crc: Crc, s: Slot, v: Bank, op: LoadOp)
    requires s.served.bank == Some(v) && Tracks(crc, s.disk, v, op)
    requires Candidate(s.disk.At(1 - v)) ==> SeqOf(s.disk.At(1 - v)) < SeqOf(s.disk.At(v))
    ensures Spares(s, 1 - v, op)
  {
    hide Decode;
  }

  /**
   When the newest header is the served bank's and no load in flight that still matches began
   before `served` last moved, an erase of the other bank need not wait.
   */
  lemma AgreementIsQuiet(crc: Crc, n: nat, k: nat, r: Race, a: Action)
    requires RaceInv(crc, n, k, r) && r.slot.served.bank.Some? && Newest(r.slot.disk) == r.slot.served.bank
    requires StartsErasing(r.slot, a).Some? ==> StartsErasing(r.slot, a) != r.slot.served.bank
    requires forall id | id in r.loads && Matches(r, r.loads[id]) :: r.loads[id].moves == r.moves
    ensures Quiet(r, a)
  {
    hide Decode, Newest, LoadInv, Valid, Tracks, Spares, StartsErasing, PhaseStands;
    NewestIsMaximal(k, r.slot.disk);
    if StartsErasing(r.slot, a).Some? {
      forall id | id in r.loads && Matches(r, r.loads[id])
        ensures Spares(r.slot, StartsErasing(r.slot, a).value, r.loads[id])
      {
        Tracked(crc, r, r.loads[id]);
        TrackedSpares(crc, r.slot, r.slot.served.bank.value, r.loads[id]);
      }
    }
  }

  lemma Tracked(crc: Crc, r: Race, op: LoadOp)
    requires LoadInv(crc, r, op) && Matches(r, op) && op.moves == r.moves && r.slot.served.bank.Some?
    ensures Tracks(crc, r.slot.disk, r.slot.served.bank.value, op)
  {
    hide Tracks, Valid, Harmless;
  }

  // ---- The condition is needed ----

  /** The first step of an erase leaves the bank unreadable. */
  lemma EraseStarts(crc: Crc, s: Slot, a: Action)
    requires StartsErasing(s, a).Some? && BankSized(s.disk.At(StartsErasing(s, a).value))
    ensures !Valid(crc, Step(crc, s, a).disk.At(StartsErasing(s, a).value))
    ensures Step(crc, s, a).served == s.served
  {
    hide Decode;
    ErasedFirstByte(Step(crc, s, a).disk.At(StartsErasing(s, a).value));
  }

  /** An erase that starts on the served bank leaves an unreadable bank served. */
  lemma ErasingServed(crc: Crc, r: Race, a: Action)
    requires StartsErasing(r.slot, a).Some? && StartsErasing(r.slot, a) == r.slot.served.bank
    requires BankSized(r.slot.disk.At(r.slot.served.bank.value))
    ensures !ServesValid(crc, RaceStep(crc, r, Write(a)).slot)
  {
    hide Decode, Step;
    EraseStarts(crc, r.slot, a);
  }

  /** The load tries bank `b`, and the rest of its payload would let it pass. */
  predicate WouldPass(crc: Crc, d: Disk, b: Bank, op: LoadOp) {
    && op.trying == Some(b) && op.HeaderFrom(b).Some?
    && var h := op.HeaderFrom(b).value;
       && |op.got| <= h.len && BANK_HEADER_BYTES + h.len <= |d.At(b)|
       && crc(0, op.got + d.At(b)[BANK_HEADER_BYTES + |op.got|..BANK_HEADER_BYTES + h.len]) == h.crc
  }

  /**
   In any state in which an erase is about to start on a bank that a load whose word still agrees
   would serve, the load ends up serving the bank that is being erased.
   */
  lemma LateLoadServesErased(crc: Crc, r: Race, a: Action, id: nat, size: nat)
    requires StartsErasing(r.slot, a).Some? && BankSized(r.slot.disk.At(StartsErasing(r.slot, a).value))
    requires id in r.loads && r.loads[id].seen == r.slot.served
    requires WouldPass(crc, r.slot.disk, StartsErasing(r.slot, a).value, r.loads[id])
    requires size >= r.loads[id].HeaderFrom(r.loads[id].trying.value).value.len
    ensures var r' := RaceExec(crc, r, [ReadChunk(id, size), Write(a), Check(id)]);
            && r'.slot.served.bank == StartsErasing(r.slot, a)
            && !ServesValid(crc, r'.slot)
            && BeginSession(r'.slot).target == 1 - StartsErasing(r.slot, a).value
  {
    hide Decode, RaceExec, Step, Valid, RegisterStep, StartsErasing, Newest, NextSeq;
    RaceThree(crc, r, ReadChunk(id, size), Write(a), Check(id));
    var b := StartsErasing(r.slot, a).value;
    var r1 := RaceStep(crc, r, ReadChunk(id, size));
    assert r1.slot == r.slot;
    EraseStarts(crc, r.slot, a);
    NoCut(r.slot, a);
    var r2 := RaceStep(crc, r1, Write(a));
    assert id in r2.loads && r2.loads[id] == r1.loads[id].Dimmed(b);
  }

  lemma NoCut(s: Slot, a: Action)
    requires StartsErasing(s, a).Some?
    ensures !a.PowerCut?
  {
  }

  /** A load of the newer bank, a session that starts to erase it, and then the load's compare-exchange. */
  function Overtaken(len: nat): seq<RaceAction> {
    [StartLoad(0), PeekHeader(0), PeekHeader(0), Write(BeginWrite), ReadChunk(0, len), Write(EraseStep), Check(0)]
  }

  /** A slot left by a header write that was complete and reported failed. */
  predicate FailedButComplete(crc: Crc, n: nat, k: nat, s: Slot) {
    && s.phase.Idle? && s.erased.None? && Sized(n, s.disk) && Sequenced(k, s.disk) && s.served.bank.Some?
    && Valid(crc, s.disk.At(s.served.bank.value)) && Valid(crc, s.disk.At(1 - s.served.bank.value))
    && SeqOf(s.disk.At(s.served.bank.value)) < SeqOf(s.disk.At(1 - s.served.bank.value))
  }

  /** That run leaves `served` on a bank that is being erased: the next write would destroy the good one. */
  lemma OvertakenLoadServesErased(crc: Crc, n: nat, k: nat, s: Slot)
    requires FailedButComplete(crc, n, k, s)
    ensures var t := 1 - s.served.bank.value;
            var r := RaceExec(crc, StartRace(crc, s), Overtaken(|Payload(s.disk.At(t))|));
            && r.slot.served.bank == Some(t) && !ServesValid(crc, r.slot)
            && BeginSession(r.slot).target == s.served.bank.value
  {
    hide Decode, Encode, RaceExec, LoadResult, LoadBank, RaceStep;
    var t := 1 - s.served.bank.value;
    var len := |Payload(s.disk.At(t))|;
    var run := Overtaken(len);
    var r4 := RaceExec(crc, StartRace(crc, s), run[..4]);
    RaceSplits(crc, StartRace(crc, s), run[..4], run[4..]);
    assert run == run[..4] + run[4..];
    assert run[4..] == [ReadChunk(0, len), Write(EraseStep), Check(0)];
    LoadPeeks(crc, n, k, s);
    LateLoadServesErased(crc, r4, EraseStep, 0, len);
  }

  lemma {:induction false} RaceSplits(crc: Crc, r: Race, run: seq<RaceAction>, later: seq<RaceAction>)
    ensures RaceExec(crc, r, run + later) == RaceExec(crc, RaceExec(crc, r, run), later)
    decreases |run|
  {
    hide RaceStep;
    if run == [] {
      assert run + later == later;
    } else {
      assert (run + later)[1..] == run[1..] + later;
      RaceSplits(crc, RaceStep(crc, r, run[0]), run[1..], later);
    }
  }

  lemma RaceThree(crc: Crc, r: Race, a: RaceAction, b: RaceAction, c: RaceAction)
    ensures RaceExec(crc, r, [a, b, c]) == RaceStep(crc, RaceStep(crc, RaceStep(crc, r, a), b), c)
  {
    hide RaceStep;
    assert [a, b, c][1..] == [b, c] && [b, c][1..] == [c] && [c][1..] == [];
    var r1 := RaceStep(crc, r, a);
    assert RaceExec(crc, r1, [b, c]) == RaceExec(crc, RaceStep(crc, r1, b), [c]);
  }

  /** A load that has read both headers is about to try the newer bank. */
  lemma PeeksBoth(crc: Crc, s: Slot, t: Bank)
    requires BankSized(s.disk.bank0) && BankSized(s.disk.bank1) && Candidate(s.disk.bank0) && Candidate(s.disk.bank1)
    requires SeqOf(s.disk.At(1 - t)) < SeqOf(s.disk.At(t))
    ensures var r := StartRace(crc, s);
            var op := LoadOp(s.served, r.commits, 0, Peeked(s.disk.bank0), Peeked(s.disk.bank1), Some(t), []);
            RaceExec(crc, r, [StartLoad(0), PeekHeader(0), PeekHeader(0)]) == r.(loads := map[0 := op])
  {
    hide Decode, LoadResult, RaceExec;
    var r := StartRace(crc, s);
    RaceThree(crc, r, StartLoad(0), PeekHeader(0), PeekHeader(0));
    var op := LoadOp(s.served, r.commits, 0, Peeked(s.disk.bank0), Peeked(s.disk.bank1), Some(t), []);
    assert op.Order() == [t, 1 - t];
  }

  lemma LoadPeeks(crc: Crc, n: nat, k: nat, s: Slot)
    requires FailedButComplete(crc, n, k, s)
    ensures var t := 1 - s.served.bank.value;
            var r := RaceExec(crc, StartRace(crc, s), Overtaken(|Payload(s.disk.At(t))|)[..4]);
            && StartsErasing(r.slot, EraseStep) == Some(t) && r.slot.disk == s.disk && r.slot.served == s.served
            && 0 in r.loads && r.loads[0].seen == s.served
            && WouldPass(crc, s.disk, t, r.loads[0])
            && r.loads[0].HeaderFrom(t).value.len == |Payload(s.disk.At(t))|
  {
    hide Decode, LoadResult, LoadBank, Encode, RaceExec, Newest, NextSeq;
    var t := 1 - s.served.bank.value;
    var len := |Payload(s.disk.At(t))|;
    var r0 := StartRace(crc, s);
    var a, b := [StartLoad(0), PeekHeader(0), PeekHeader(0)], [Write(BeginWrite)];
    assert Overtaken(len)[..4] == a + b;
    RaceSplits(crc, r0, a, b);
    PeeksBoth(crc, s, t);
    RaceOne(crc, RaceExec(crc, r0, a), Write(BeginWrite));
    var bank := s.disk.At(t);
    if IsBlank(bank) {
      ErasedFirstByte(bank);
    }
    assert [] + bank[BANK_HEADER_BYTES..BANK_HEADER_BYTES + len] == Payload(bank);
  }

  lemma RaceOne(crc: Crc, r: Race, a: RaceAction)
    ensures RaceExec(crc, r, [a]) == RaceStep(crc, r, a)
  {
    hide RaceStep;
  }

  /** Such a slot is reached by a disciplined run of one thread from erased flash. */
  lemma FailedButCompleteIsReached(crc: Crc, n: nat)
    requires Chains(crc) && BANK_HEADER_BYTES <= n <= MAX_BANK_BYTES
    ensures Disciplined(crc, BlankSlot(n), FirstBoot() + FailedRewrite())
    ensures FailedButComplete(crc, n, 2, Exec(crc, BlankSlot(n), FirstBoot() + FailedRewrite()))
  {
    hide Exec, Disciplined, FirstBoot, FailedRewrite, BlankSlot, LoadBank, Staged, Decode;
    FailedWriteIsErased(crc, n);
    DoubledBanks(crc, n);
  }
}
