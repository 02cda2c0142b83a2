/**
 Ordinary runs over a slot whose newest header is the served bank's: no erase has to wait for a
 load, whatever the loads on other threads have read (slice_store_core.rs).
 */
module ServedRuns {
  import opened Wrappers
  import opened SliceLayout
  import opened BankFormat
  import opened SlotMachine
  import opened CrashConsistency
  import opened UnprovedWrite
  import opened SliceCalls
  import opened ServedRace

  // ---- What an ordinary run may do ----

  /** No power cut, reads of the served bank work, and a header write that fails has not left a header. */
  predicate OrdinaryStep(k: nat, s: Slot, a: Action) {
    && !a.PowerCut? && (a.BeginWrite? ==> k + 1 < SEQ_LIMIT)
    && (a.LoadFrom? ==> s.served.bank == Some(a.bank))
    && (a.HeaderFails? && s.phase.WritingHeader? ==> !Candidate(s.disk.At(s.phase.s.target)))
  }

  /** Nothing is asked of the loads at an erase. */
  predicate Ordinary(k: nat, r: Race, a: RaceAction) {
    match a
    case Write(step) => OrdinaryStep(k, r.slot, step)
    case _ => Allowed(k, r, a)
  }

  predicate AllOrdinary(crc: Crc, k: nat, r: Race, run: seq<RaceAction>)
    decreases |run|
  {
    run == [] ||
    (Ordinary(k, r, run[0]) && AllOrdinary(crc, Sessions(k, run[0]), RaceStep(crc, r, run[0]), run[1..]))
  }

  // ---- The slot ----

  /** The newest header is the one of the bank `v`; no header at all when there is no such bank. */
  predicate Leads(d: Disk, v: Option<Bank>) {
    match v
    case Some(i) => Candidate(d.At(i)) && (Candidate(d.At(1 - i)) ==> SeqOf(d.At(1 - i)) < SeqOf(d.At(i)))
    case None => !Candidate(d.bank0) && !Candidate(d.bank1)
  }

  lemma LeadsIsNewest(k: nat, d: Disk, v: Option<Bank>)
    requires Sequenced(k, d)
    ensures Leads(d, v) <==> Newest(d) == v
  {
    hide Decode;
  }

  /** The served bank leads, and a session writes the other one until its header is complete. */
  predicate Agrees(s: Slot) {
    match s.phase
    case Idle => Leads(s.disk, s.served.bank)
    case Erasing(ss, _) => Leads(s.disk, s.served.bank) && s.served.bank != Some(ss.target)
    case Open(ss) => Leads(s.disk, s.served.bank) && s.served.bank != Some(ss.target)
    case Appending(ss, _, _) => Leads(s.disk, s.served.bank) && s.served.bank != Some(ss.target)
    case WritingHeader(ss, _) =>
      || s.served.bank == Some(ss.target)
      || s.served.bank == if Candidate(s.disk.At(1 - ss.target)) then Some(1 - ss.target) else None
    case ErasingStale(_, _) => true
  }

  /** The target of a session is no candidate before its header is written. */
  lemma TargetIsBlank(crc: Crc, n: nat, k: nat, s: Slot, given: seq<u8>)
    requires SlotInv(crc, n, k, s, given)
    requires (s.phase.Erasing? && s.phase.pos > 0) || s.phase.Open? || s.phase.Appending?
    ensures !Candidate(s.disk.At(s.phase.s.target))
  {
    hide Decode, Encode;
    var b := s.disk.At(s.phase.s.target);
    if s.phase.Erasing? {
      assert b[0] == b[..s.phase.pos][0];
    } else if s.phase.Open? && s.phase.s.failed {
      assert b[0] == b[..BANK_HEADER_BYTES][0];
    }
    ErasedFirstByte(b);
  }

  /** After a commit the new bank leads. */
  lemma CommittedLeads(crc: Crc, n: nat, k: nat, s: Slot, ss: Session, given: seq<u8>)
    requires n <= MAX_BANK_BYTES && Later(k, s, ss) && Holds(crc, n, s, ss, given, [], BANK_HEADER_BYTES)
    ensures Leads(s.disk, Some(ss.target))
  {
    hide Decode, Encode, Staged;
    HeldBank(crc, n, s, ss, given, BANK_HEADER_BYTES);
  }

  /** A load of a slot whose served bank leads finds that bank. */
  lemma LeadIsLoaded(crc: Crc, d: Disk, v: Option<Bank>)
    requires Leads(d, v) && (v.Some? ==> Valid(crc, d.At(v.value)))
    ensures LoadBank(crc, d) == v
  {
    hide Decode;
    if v.Some? {
      LoadNewest(crc, d, v.value);
    } else {
      LoadWithout(crc, d, 0);
    }
  }

  lemma WriterAgrees(crc: Crc, n: nat, k: nat, s: Slot, reg: Register, a: Action)
    requires Chains(crc) && SlotInv(crc, n, k, s, reg.building) && Agrees(s) && OrdinaryStep(k, s, a)
    requires StartsErasing(s, a).Some? ==> StartsErasing(s, a) != s.served.bank
    ensures Agrees(Step(crc, s, a))
    ensures !Commits(s, a) ==> Step(crc, s, a).served == s.served
  {
    hide SlotInv, Agrees, Step, Chains, Leads, StartsErasing;
    WriterKeeps(crc, n, k, s, reg, a);
    var k', given' := if a.BeginWrite? then k + 1 else k, RegisterStep(crc, reg, s, a).building;
    match a
    case EraseStep => RewriteAgrees(crc, n, k, s, k', given', a);
    case AppendStep => RewriteAgrees(crc, n, k, s, k', given', a);
    case HeaderStep => HeaderAgrees(crc, n, k, s, reg.building);
    case StaleStep => StaleAgrees(crc, n, k, s, reg.building, a);
    case StaleFails => StaleAgrees(crc, n, k, s, reg.building, a);
    case Load => LoadAgrees(crc, n, k, s, reg.building, a);
    case LoadFrom(_) => LoadAgrees(crc, n, k, s, reg.building, a);
    case _ => CallAgrees(crc, n, k, s, reg.building, a);
  }

  /** Erasing and appending reach the target alone and leave no header in it. */
  lemma RewriteAgrees(crc: Crc, n: nat, k: nat, s: Slot, k': nat, given': seq<u8>, a: Action)
    requires Agrees(s) && (a.EraseStep? || a.AppendStep?)
    requires SlotInv(crc, n, k', Step(crc, s, a), given')
    ensures Agrees(Step(crc, s, a)) && Step(crc, s, a).served == s.served
  {
    hide Decode, EraseByte, ProgramByte, SlotInv;
    var s' := Step(crc, s, a);
    if s' != s {
      TargetIsBlank(crc, n, k', s', given');
    }
  }

  lemma HeaderAgrees(crc: Crc, n: nat, k: nat, s: Slot, given: seq<u8>)
    requires SlotInv(crc, n, k, s, given) && Agrees(s)
    ensures Agrees(Step(crc, s, HeaderStep))
    ensures !Commits(s, HeaderStep) ==> Step(crc, s, HeaderStep).served == s.served
  {
    hide Decode, ProgramByte, Encode, Staged, HeaderOf, Leads;
    if Commits(s, HeaderStep) {
      CommittedLeads(crc, n, k, s, s.phase.s, given);
    }
  }

  lemma StaleAgrees(crc: Crc, n: nat, k: nat, s: Slot, given: seq<u8>, a: Action)
    requires SlotInv(crc, n, k, s, given) && Agrees(s) && (a.StaleStep? || a.StaleFails?)
    ensures Agrees(Step(crc, s, a)) && Step(crc, s, a).served == s.served
  {
    hide Decode, EraseByte, Encode, Staged, HeaderOf, Leads;
    if s.phase.ErasingStale? {
      CommittedLeads(crc, n, k, s, s.phase.s, given);
    }
  }

  lemma LoadAgrees(crc: Crc, n: nat, k: nat, s: Slot, given: seq<u8>, a: Action)
    requires SlotInv(crc, n, k, s, given) && Agrees(s) && Loads(a) && OrdinaryStep(k, s, a)
    ensures Agrees(Step(crc, s, a)) && Step(crc, s, a).served == s.served
  {
    hide Decode, Encode, Staged, HeaderOf, Leads, LoadBank, Valid, PhaseStands;
    if s.phase.Idle? || s.phase.Open? {
      LeadIsLoaded(crc, s.disk, s.served.bank);
    }
  }

  /** The steps that touch no flash. */
  lemma CallAgrees(crc: Crc, n: nat, k: nat, s: Slot, given: seq<u8>, a: Action)
    requires SlotInv(crc, n, k, s, given) && Agrees(s) && OrdinaryStep(k, s, a)
    requires a.BeginWrite? || a.EraseFails? || a.Append? || a.AppendFails? || a.Commit? || a.HeaderFails? || a.Abort?
    ensures Agrees(Step(crc, s, a)) && Step(crc, s, a).served == s.served
  {
    hide Decode, Encode, Staged, HeaderOf, NextSeq, IsBlank, Newest;
    LeadsIsNewest(k, s.disk, s.served.bank);
    if a.Commit? && s.phase.Open? {
      TargetIsBlank(crc, n, k, s, given);
    }
  }

  // ---- The loads ----

  /** While no bank is served a load has no header, but for the one being written. */
  predicate Headerless(s: Slot, op: LoadOp, b: Bank) {
    op.HeaderFrom(b).Some? ==> s.phase.WritingHeader? && s.phase.s.target == b && Candidate(s.disk.At(b))
  }

  /** The load has seen the last move of `served`, or no longer matches while a served header is finished. */
  predicate KeepsUp(r: Race, op: LoadOp) {
    op.commits == r.commits ==>
      || (op.moves == r.moves
          && (r.slot.served.bank.None? ==> Headerless(r.slot, op, 0) && Headerless(r.slot, op, 1)))
      || (r.slot.phase.WritingHeader? && r.slot.served.bank == Some(r.slot.phase.s.target)
          && op.seen.bank != r.slot.served.bank)
  }

  predicate OrdinaryInv(crc: Crc, n: nat, k: nat, r: Race) {
    && RaceInv(crc, n, k, r) && Agrees(r.slot)
    && forall id | id in r.loads :: KeepsUp(r, r.loads[id])
  }

  /** An erase of an ordinary run starts quietly. */
  lemma OrdinaryIsQuiet(crc: Crc, n: nat, k: nat, r: Race, a: Action)
    requires OrdinaryInv(crc, n, k, r)
    ensures Quiet(r, a)
  {
    hide Decode, LoadInv, Newest, Leads, PhaseStands;
    if a.StaleStep? {
      StaleIsQuiet(crc, n, k, r);
    } else if StartsErasing(r.slot, a).Some? {
      LeadsIsNewest(k, r.slot.disk, r.slot.served.bank);
      assert forall id | id in r.loads && Matches(r, r.loads[id]) :: KeepsUp(r, r.loads[id]);
      if r.slot.served.bank.Some? {
        AgreementIsQuiet(crc, n, k, r, a);
      }
    }
  }

  /** The header of a session stays a candidate as it grows. */
  lemma TargetStays(crc: Crc, n: nat, k: nat, s: Slot, given: seq<u8>, a: Action)
    requires SlotInv(crc, n, k, s, given) && s.phase.WritingHeader? && Candidate(s.disk.At(s.phase.s.target))
    ensures Candidate(Step(crc, s, a).disk.At(s.phase.s.target))
  {
    hide SlotInv, Decode, Step;
    WriterEffect(crc, n, k, s, given, a, s.phase.s.target);
  }

  /** What the writer's step does to its phase, seen from a header being written. */
  lemma WritingStep(crc: Crc, s: Slot, a: Action)
    requires s.phase.WritingHeader? && !a.PowerCut? && !Commits(s, a)
    ensures var p := Step(crc, s, a).phase;
            if a.HeaderFails? then p.Idle? else p.WritingHeader? && p.s.target == s.phase.s.target
  {
    hide Encode, ProgramByte, HeaderOf, LoadBank, BeginSession, Valid;
  }

  lemma WriteKeepsUp(crc: Crc, n: nat, k: nat, r: Race, a: Action, op: LoadOp)
    requires SlotInv(crc, n, k, r.slot, r.register.building) && Agrees(r.slot) && OrdinaryStep(k, r.slot, a)
    requires op.commits <= r.commits && KeepsUp(r, op)
    requires !Commits(r.slot, a) ==> Step(crc, r.slot, a).served == r.slot.served
    ensures KeepsUp(WriterStep(crc, r, a), DimmedBy(op, StartsErasing(r.slot, a)))
  {
    hide SlotInv, Agrees, Step, StartsErasing, Candidate, RegisterStep, Leads;
    if !Commits(r.slot, a) && r.slot.phase.WritingHeader? {
      WritingStep(crc, r.slot, a);
      if Candidate(r.slot.disk.At(r.slot.phase.s.target)) {
        TargetStays(crc, n, k, r.slot, r.register.building, a);
      } else if r.slot.served.bank.Some? {
        ServedIsCandidate(crc, n, k, r.slot, r.register.building);
      }
    }
  }

  lemma ServedIsCandidate(crc: Crc, n: nat, k: nat, s: Slot, given: seq<u8>)
    requires SlotInv(crc, n, k, s, given) && s.served.bank.Some?
    ensures Candidate(s.disk.At(s.served.bank.value))
  {
    hide PhaseStands, Decode;
  }

  lemma WriteStaysOrdinary(crc: Crc, n: nat, k: nat, r: Race, a: Action)
    requires Chains(crc) && OrdinaryInv(crc, n, k, r) && OrdinaryStep(k, r.slot, a)
    ensures Allowed(k, r, Write(a))
    ensures OrdinaryInv(crc, n, if a.BeginWrite? then k + 1 else k, WriterStep(crc, r, a))
  {
    hide SlotInv, LoadInv, Agrees, Step, RegisterStep, StartsErasing, Chains, KeepsUp, Spares, Matches;
    OrdinaryIsQuiet(crc, n, k, r, a);
    WriteKeepsRace(crc, n, k, r, a);
    WriterAgrees(crc, n, k, r.slot, r.register, a);
    forall id | id in r.loads
      ensures KeepsUp(WriterStep(crc, r, a), WriterStep(crc, r, a).loads[id])
    {
      LoadCounts(crc, r, r.loads[id]);
      WriteKeepsUp(crc, n, k, r, a, r.loads[id]);
    }
  }

  lemma LoadCounts(crc: Crc, r: Race, op: LoadOp)
    requires LoadInv(crc, r, op)
    ensures op.commits <= r.commits
    ensures op.commits == r.commits && op.moves == r.moves ==> op.seen.bank == r.slot.served.bank
  {
    hide Tracks, Harmless, Valid;
  }

  // ---- A load's steps ----

  lemma PeekKeepsUp(crc: Crc, n: nat, k: nat, r: Race, op: LoadOp)
    requires OrdinaryInv(crc, n, k, r) && KeepsUp(r, op)
    ensures KeepsUp(r, AfterPeek(r.slot.disk, op))
  {
    hide Decode, LoadInv, SlotInv;
    NoServedStale(crc, n, k, r.slot, r.register.building);
  }

  lemma NoServedStale(crc: Crc, n: nat, k: nat, s: Slot, given: seq<u8>)
    requires SlotInv(crc, n, k, s, given)
    ensures s.phase.ErasingStale? ==> s.served.bank.Some?
  {
    hide Holds, Later, IsBlank, Valid;
  }

  lemma ChunkKeepsUp(r: Race, op: LoadOp, size: nat)
    requires KeepsUp(r, op) && Trying(op)
    ensures KeepsUp(r, AfterChunk(r.slot.disk, op, size))
  {
    hide Candidate;
  }

  lemma GivenUpKeepsUp(r: Race, id: nat)
    requires id in r.loads && forall i | i in r.loads :: KeepsUp(r, r.loads[i])
    ensures var r' := r.(loads := GivenUp(r.loads, id)); forall i | i in r'.loads :: KeepsUp(r', r'.loads[i])
  {
    hide Candidate;
  }

  /** A load moves `served` only onto a header that is being finished. */
  lemma PassMoves(crc: Crc, n: nat, k: nat, r: Race, op: LoadOp)
    requires OrdinaryInv(crc, n, k, r) && LoadInv(crc, r, op) && KeepsUp(r, op) && Matches(r, op) && Trying(op)
    requires |op.got| >= op.HeaderFrom(op.trying.value).value.len
    requires crc(0, op.got) == op.HeaderFrom(op.trying.value).value.crc
    requires Some(op.trying.value) != r.slot.served.bank
    ensures r.slot.phase.WritingHeader? && op.trying.value == r.slot.phase.s.target
  {
    hide Decode, Tracks, Harmless, Valid, Holds;
    PassIsSafe(crc, n, k, r, op);
    if r.slot.served.bank.Some? {
      ServedIsCandidate(crc, n, k, r.slot, r.register.building);
      TracksNewer(crc, r.slot.disk, r.slot.served.bank.value, op);
      if r.slot.phase.WritingHeader? {
        HeldBank(crc, n, r.slot, r.slot.phase.s, r.register.building, r.slot.phase.pos);
      }
    }
  }

  lemma CheckStaysOrdinary(crc: Crc, n: nat, k: nat, r: Race, id: nat)
    requires Chains(crc) && OrdinaryInv(crc, n, k, r) && Allowed(k, r, Check(id))
    ensures OrdinaryInv(crc, n, k, RaceStep(crc, r, Check(id)))
  {
    hide SlotInv, LoadInv, Agrees, KeepsUp, Matches, Chains;
    CheckKeeps(crc, n, k, r, id);
    if id in r.loads && Trying(r.loads[id]) {
      var op := r.loads[id];
      var h := op.HeaderFrom(op.trying.value).value;
      if |op.got| >= h.len {
        if crc(0, op.got) == h.crc {
          PassStaysOrdinary(crc, n, k, r, id);
        } else {
          GivenUpKeepsUp(r, id);
        }
      }
    }
  }

  lemma PassStaysOrdinary(crc: Crc, n: nat, k: nat, r: Race, id: nat)
    requires OrdinaryInv(crc, n, k, r) && id in r.loads && Trying(r.loads[id])
    requires r.commits - r.loads[id].commits < GENERATIONS
    requires var op := r.loads[id]; var h := op.HeaderFrom(op.trying.value).value;
             |op.got| >= h.len && crc(0, op.got) == h.crc
    ensures var r' := RaceStep(crc, r, Check(id));
            Agrees(r'.slot) && forall i | i in r'.loads :: KeepsUp(r', r'.loads[i])
  {
    hide SlotInv, LoadInv, Matches, Leads, Candidate;
    var op, r' := r.loads[id], RaceStep(crc, r, Check(id));
    MatchesIff(crc, n, k, r, op);
    if r'.slot.served.bank != r.slot.served.bank {
      PassMoves(crc, n, k, r, op);
      forall i | i in r'.loads ensures KeepsUp(r', r'.loads[i]) {
        LoadCounts(crc, r, r.loads[i]);
        assert KeepsUp(r, r.loads[i]);
      }
    } else {
      assert r'.slot == r.slot;
    }
  }

  lemma StepStaysOrdinary(crc: Crc, n: nat, k: nat, r: Race, a: RaceAction)
    requires Chains(crc) && OrdinaryInv(crc, n, k, r) && Ordinary(k, r, a)
    ensures Allowed(k, r, a) && OrdinaryInv(crc, n, Sessions(k, a), RaceStep(crc, r, a))
  {
    hide RaceInv, Agrees, KeepsUp, WriterStep, Chains, Quiet, OrdinaryStep;
    match a
    case Write(step) => WriteStaysOrdinary(crc, n, k, r, step);
    case Check(id) => CheckStaysOrdinary(crc, n, k, r, id);
    case _ =>
      RaceStepKeeps(crc, n, k, r, a);
      LoadStaysOrdinary(crc, n, k, r, a);
  }

  lemma LoadStaysOrdinary(crc: Crc, n: nat, k: nat, r: Race, a: RaceAction)
    requires OrdinaryInv(crc, n, k, r) && !a.Write? && !a.Check?
    ensures var r' := RaceStep(crc, r, a);
            r'.slot == r.slot && forall i | i in r'.loads :: KeepsUp(r', r'.loads[i])
  {
    hide RaceInv, Agrees, AfterPeek, AfterChunk, Trying, Candidate;
    var r' := RaceStep(crc, r, a);
    match a
    case StartLoad(id) =>
    case PeekHeader(id) =>
      if id in r.loads {
        PeekKeepsUp(crc, n, k, r, r.loads[id]);
      }
    case ReadChunk(id, size) =>
      if id in r.loads && Trying(r.loads[id]) {
        ChunkKeepsUp(r, r.loads[id], size);
      }
    case ReadFails(id) =>
      if id in r.loads {
        GivenUpKeepsUp(r, id);
      }
  }

  // ---- Whole runs ----

  /** The sessions begun by the end of the run. */
  function Counted(k: nat, run: seq<RaceAction>): nat
    decreases |run|
  {
    if run == [] then k else Counted(Sessions(k, run[0]), run[1..])
  }

  lemma {:induction false} OrdinaryRun(crc: Crc, n: nat, k: nat, r: Race, run: seq<RaceAction>)
    requires Chains(crc) && OrdinaryInv(crc, n, k, r) && AllOrdinary(crc, k, r, run)
    ensures AllAllowed(crc, k, r, run) && Spared(crc, r, run)
    ensures OrdinaryInv(crc, n, Counted(k, run), RaceExec(crc, r, run))
    decreases |run|
  {
    hide RaceInv, Agrees, KeepsUp, RaceStep, Chains, Allowed, Ordinary;
    if run != [] {
      StepStaysOrdinary(crc, n, k, r, run[0]);
      if r.slot.served.bank.Some? {
        StepSparesServed(crc, n, k, r, run[0]);
      }
      OrdinaryRun(crc, n, Sessions(k, run[0]), RaceStep(crc, r, run[0]), run[1..]);
    }
  }

  /**
   From a slot whose newest header is the served bank's, or one without a header, in every ordinary
   interleaving: every erase starts quietly, the bank served passes and is the one a load would
   read unless a header is just being written, and no step changes a byte of it.
   */
  lemma ProvedBankIsSafe(crc: Crc, n: nat, k: nat, s: Slot, run: seq<RaceAction>)
    requires Chains(crc) && AtRest(crc, n, k, s) && Newest(s.disk) == s.served.bank
    requires AllOrdinary(crc, k, StartRace(crc, s), run)
    ensures AllAllowed(crc, k, StartRace(crc, s), run) && Spared(crc, StartRace(crc, s), run)
    ensures var s' := RaceExec(crc, StartRace(crc, s), run).slot;
            && ServesValid(crc, s')
            && (s'.phase.WritingHeader? || LoadBank(crc, s'.disk) == s'.served.bank)
  {
    hide AtRest, AllOrdinary, AllAllowed, Chains, RaceExec, Spared, RaceInv, Newest, LoadBank;
    RestStarts(crc, n, k, s);
    RestAgrees(crc, n, k, s);
    OrdinaryRun(crc, n, k, StartRace(crc, s), run);
    var r := RaceExec(crc, StartRace(crc, s), run);
    OrdinaryServes(crc, n, Counted(k, run), r);
  }

  lemma RestAgrees(crc: Crc, n: nat, k: nat, s: Slot)
    requires AtRest(crc, n, k, s) && Newest(s.disk) == s.served.bank
    ensures Agrees(s)
  {
    hide Newest, Leads;
    LeadsIsNewest(k, s.disk, s.served.bank);
  }

  lemma OrdinaryServes(crc: Crc, n: nat, k: nat, r: Race)
    requires OrdinaryInv(crc, n, k, r)
    ensures ServesValid(crc, r.slot) && (r.slot.phase.WritingHeader? || LoadBank(crc, r.slot.disk) == r.slot.served.bank)
  {
    hide Decode, LoadBank, LoadInv, Valid, Leads, Holds;
    if r.slot.phase.ErasingStale? {
      CommittedLeads(crc, n, k, r.slot, r.slot.phase.s, r.register.building);
    }
    if !r.slot.phase.WritingHeader? {
      LeadIsLoaded(crc, r.slot.disk, r.slot.served.bank);
    }
  }

  /** So it is from erased flash on, the first write of the slice included. */
  lemma ErasedFlashIsSafe(crc: Crc, n: nat, run: seq<RaceAction>)
    requires Chains(crc) && BANK_HEADER_BYTES <= n <= MAX_BANK_BYTES
    requires AllOrdinary(crc, 0, StartRace(crc, BlankSlot(n)), run)
    ensures Spared(crc, StartRace(crc, BlankSlot(n)), run)
    ensures var s' := RaceExec(crc, StartRace(crc, BlankSlot(n)), run).slot;
            && ServesValid(crc, s')
            && (s'.phase.WritingHeader? || LoadBank(crc, s'.disk) == s'.served.bank)
  {
    hide AllOrdinary, AllAllowed, Chains, RaceExec, Spared, Decode, LoadBank;
    BlankIsAtRest(crc, n);
    ErasedFirstByte(Blank(n));
    ProvedBankIsSafe(crc, n, 0, BlankSlot(n), run);
  }

  // ---- The start and the failing header cannot be dropped ----

  /** A slot between sessions with a newer header in the bank that is not served. */
  predicate NewerHeader(crc: Crc, n: nat, k: nat, s: Slot) {
    && AtRest(crc, n, k, s) && s.erased.None? && s.served.bank.Some?
    && var t := 1 - s.served.bank.value;
       Candidate(s.disk.At(t)) && SeqOf(s.disk.At(1 - t)) < SeqOf(s.disk.At(t))
  }

  function Writes(run: seq<Action>): (r: seq<RaceAction>)
    ensures |r| == |run|
  {
    seq(|run|, i requires 0 <= i < |run| => Write(run[i]))
  }

  /** A load reads both headers, and a session begins. */
  const LOOKS: seq<RaceAction> := [StartLoad(0), PeekHeader(0), PeekHeader(0), Write(BeginWrite)]

  /** The session erases its target and appends a payload. */
  function Rewrite(n: nat, q: seq<u8>): seq<Action> {
    Repeat(EraseStep, n) + ([EraseStep, Append(q)] + Repeat(AppendStep, |q|))
  }

  /** Then the load reads on, and checks. */
  function Misled(n: nat, q: seq<u8>): seq<RaceAction> {
    LOOKS + (Writes(Rewrite(n, q)) + [ReadChunk(0, |q|), Check(0)])
  }

  lemma {:induction false} OrdinarySplits(crc: Crc, k: nat, r: Race, run: seq<RaceAction>, later: seq<RaceAction>)
    ensures AllOrdinary(crc, k, r, run + later)
            <==> AllOrdinary(crc, k, r, run) && AllOrdinary(crc, Counted(k, run), RaceExec(crc, r, run), later)
    decreases |run|
  {
    hide RaceStep, Ordinary;
    if run == [] {
      assert run + later == later;
    } else {
      assert (run + later)[1..] == run[1..] + later;
      OrdinarySplits(crc, Sessions(k, run[0]), RaceStep(crc, r, run[0]), run[1..], later);
    }
  }

  /** The steps of a session that neither begin nor end it. */
  predicate Within(a: Action) {
    a.EraseStep? || a.Append? || a.AppendStep?
  }

  /** The same load, but for what it knows to be intact. */
  predicate SameReads(a: LoadOp, b: LoadOp) {
    && b == a.(peek0 := b.peek0, peek1 := b.peek1)
    && b.HeaderFrom(0) == a.HeaderFrom(0) && b.HeaderFrom(1) == a.HeaderFrom(1)
  }

  /** The writer goes its way, and the load has read what it has read. */
  lemma {:induction false} WriterRuns(crc: Crc, k: nat, r: Race, run: seq<Action>)
    requires 0 in r.loads && forall i | 0 <= i < |run| :: Within(run[i])
    ensures var r' := RaceExec(crc, r, Writes(run));
            && r'.slot == Exec(crc, r.slot, run) && r'.slot.served == r.slot.served && r'.commits == r.commits
            && 0 in r'.loads && SameReads(r.loads[0], r'.loads[0])
    ensures AllOrdinary(crc, k, r, Writes(run))
    decreases |run|
  {
    hide Step, RegisterStep, StartsErasing;
    if run != [] {
      WithinStep(crc, r.slot, run[0]);
      var next := RaceStep(crc, r, Write(run[0]));
      assert Writes(run)[1..] == Writes(run[1..]);
      WriterRuns(crc, k, next, run[1..]);
    }
  }

  lemma WithinStep(crc: Crc, s: Slot, a: Action)
    requires Within(a)
    ensures Step(crc, s, a).served == s.served
  {
    hide EraseByte, ProgramByte;
  }

  lemma Looked(crc: Crc, n: nat, k: nat, s: Slot)
    requires NewerHeader(crc, n, k, s) && k + 1 < SEQ_LIMIT
    ensures var t := 1 - s.served.bank.value;
            var r := RaceExec(crc, StartRace(crc, s), LOOKS);
            && BeginSession(s).target == t && r.slot == s.(phase := Erasing(BeginSession(s), 0))
            && r.commits == s.served.generation
            && 0 in r.loads && r.loads[0].seen == s.served && r.loads[0].commits == r.commits
            && r.loads[0].trying == Some(t) && r.loads[0].got == []
            && r.loads[0].HeaderFrom(t) == Some(Decode(s.disk.At(t)).value)
    ensures AllOrdinary(crc, k, StartRace(crc, s), LOOKS)
  {
    hide Decode, LoadResult, LoadBank, Encode, RaceExec, Newest, NextSeq, AllOrdinary;
    var t := 1 - s.served.bank.value;
    var r0 := StartRace(crc, s);
    var a, b := [StartLoad(0), PeekHeader(0), PeekHeader(0)], [Write(BeginWrite)];
    assert LOOKS == a + b;
    RaceSplits(crc, r0, a, b);
    PeeksBoth(crc, s, t);
    RaceOne(crc, RaceExec(crc, r0, a), Write(BeginWrite));
    if IsBlank(s.disk.At(t)) {
      ErasedFirstByte(s.disk.At(t));
    }
    LooksAreOrdinary(crc, k, r0);
  }

  lemma LooksAreOrdinary(crc: Crc, k: nat, r: Race)
    requires k + 1 < SEQ_LIMIT
    ensures AllOrdinary(crc, k, r, LOOKS)
  {
    hide RaceStep;
    assert LOOKS[1..] == [PeekHeader(0), PeekHeader(0), Write(BeginWrite)];
    assert LOOKS[1..][1..] == [PeekHeader(0), Write(BeginWrite)];
    assert LOOKS[1..][1..][1..] == [Write(BeginWrite)];
    assert LOOKS[1..][1..][1..][1..] == [];
    var r1 := RaceStep(crc, r, LOOKS[0]);
    var r2 := RaceStep(crc, r1, PeekHeader(0));
    var r3 := RaceStep(crc, r2, PeekHeader(0));
    assert AllOrdinary(crc, k, r3, [Write(BeginWrite)]);
    assert AllOrdinary(crc, k, r2, [PeekHeader(0), Write(BeginWrite)]);
    assert AllOrdinary(crc, k, r1, [PeekHeader(0), PeekHeader(0), Write(BeginWrite)]);
  }

  /** The target after the session has erased it and appended a payload: the payload is there and no header is. */
  lemma Rewritten(crc: Crc, n: nat, s: Slot, ss: Session, q: seq<u8>)
    requires s.phase == Erasing(ss, 0) && ss.written == 0 && !ss.failed && Sized(n, s.disk)
    requires BANK_HEADER_BYTES + |q| <= n
    ensures var b := Exec(crc, s, Rewrite(n, q)).disk.At(ss.target);
            && |b| == n && b[0] == ERASED_BYTE && b[BANK_HEADER_BYTES..BANK_HEADER_BYTES + |q|] == q
  {
    hide Exec, Repeat, Erased, Programmed, BeginSession, LoadBank, IsBlank, Encode, HeaderOf, ProgramByte, EraseByte;
    var b := s.disk.At(ss.target);
    ErasedNone(b, 0);
    EraseRun(crc, s, ss, b, 0, n);
    var s1 := Exec(crc, s, Repeat(EraseStep, n));
    ExecTwo(crc, s1, EraseStep, Append(q));
    var s2 := Exec(crc, s1, [EraseStep, Append(q)]);
    var e := Erased(b, 0, n);
    ProgrammedNone(e, BANK_HEADER_BYTES, q);
    AppendBytes(crc, s2, ss, q, e, 0, |q|);
    RunSplits(crc, s1, EMPTY_REGISTER, [EraseStep, Append(q)], Repeat(AppendStep, |q|));
    RunSplits(crc, s, EMPTY_REGISTER, Repeat(EraseStep, n), [EraseStep, Append(q)] + Repeat(AppendStep, |q|));
    assert q[..|q|] == q;
    PayloadLands(b, n, q);
  }

  lemma PayloadLands(b: seq<u8>, n: nat, q: seq<u8>)
    requires |b| == n && BANK_HEADER_BYTES + |q| <= n
    ensures var p := Programmed(Erased(b, 0, n), BANK_HEADER_BYTES, q);
            p[0] == ERASED_BYTE && p[BANK_HEADER_BYTES..BANK_HEADER_BYTES + |q|] == q
  {
    var e := Erased(b, 0, n);
    ErasedBytes(b, 0, n);
    assert IsBlank(e[BANK_HEADER_BYTES..BANK_HEADER_BYTES + |q|]);
    ProgramErased(e, BANK_HEADER_BYTES, q);
  }

  /**
   With a newer header in the bank that is not served, whole or torn, and any payload of its length
   and checksum, an ordinary run leaves `served` on a bank without a header.
   */
  lemma NewerHeaderMisleads(crc: Crc, n: nat, k: nat, s: Slot, q: seq<u8>)
    requires NewerHeader(crc, n, k, s) && k + 1 < SEQ_LIMIT
    requires var h := Decode(s.disk.At(1 - s.served.bank.value)).value; |q| == h.len && crc(0, q) == h.crc
    ensures AllOrdinary(crc, k, StartRace(crc, s), Misled(n, q))
    ensures var s' := RaceExec(crc, StartRace(crc, s), Misled(n, q)).slot;
            s'.served.bank == Some(1 - s.served.bank.value) && !ServesValid(crc, s')
  {
    hide Decode, RaceExec, AllOrdinary, Exec, Rewrite, BeginSession, Writes, Encode, RaceStep;
    var r0, t, ss := StartRace(crc, s), 1 - s.served.bank.value, BeginSession(s);
    var w, end := Writes(Rewrite(n, q)), [ReadChunk(0, |q|), Check(0)];
    Looked(crc, n, k, s);
    var r1 := RaceExec(crc, r0, LOOKS);
    SessionStarts(s);
    RewriteIsWithin(n, q);
    WriterRuns(crc, Counted(k, LOOKS), r1, Rewrite(n, q));
    Rewritten(crc, n, r1.slot, ss, q);
    var r2 := RaceExec(crc, r1, w);
    ReadsAndServes(crc, r2, t, q);
    RaceSplits(crc, r1, w, end);
    RaceSplits(crc, r0, LOOKS, w + end);
    OrdinarySplits(crc, Counted(k, LOOKS), r1, w, end);
    OrdinarySplits(crc, k, r0, LOOKS, w + end);
    EndIsOrdinary(crc, Counted(Counted(k, LOOKS), w), r2, q);
  }

  lemma {:induction false} RepeatedWithin(a: Action, j: nat)
    requires Within(a)
    ensures forall i | 0 <= i < j :: Within(Repeat(a, j)[i])
    decreases j
  {
    if j > 0 {
      RepeatedWithin(a, j - 1);
    }
  }

  lemma RewriteIsWithin(n: nat, q: seq<u8>)
    ensures forall i | 0 <= i < |Rewrite(n, q)| :: Within(Rewrite(n, q)[i])
  {
    hide Repeat;
    RepeatedWithin(EraseStep, n);
    RepeatedWithin(AppendStep, |q|);
  }

  lemma ReadsAndServes(crc: Crc, r: Race, t: Bank, q: seq<u8>)
    requires 0 in r.loads && r.loads[0].seen == r.slot.served && r.loads[0].trying == Some(t) && r.loads[0].got == []
    requires var b := r.slot.disk.At(t);
             BankSized(b) && BANK_HEADER_BYTES + |q| <= |b| && b[0] == ERASED_BYTE
             && b[BANK_HEADER_BYTES..BANK_HEADER_BYTES + |q|] == q
    requires r.loads[0].HeaderFrom(t).Some?
    requires r.loads[0].HeaderFrom(t).value.len == |q| && r.loads[0].HeaderFrom(t).value.crc == crc(0, q)
    ensures var s' := RaceExec(crc, r, [ReadChunk(0, |q|), Check(0)]).slot;
            s'.served.bank == Some(t) && !ServesValid(crc, s')
  {
    hide Decode, RaceExec;
    var a, b := [ReadChunk(0, |q|)], [Check(0)];
    assert [ReadChunk(0, |q|), Check(0)] == a + b;
    RaceSplits(crc, r, a, b);
    RaceOne(crc, r, ReadChunk(0, |q|));
    var r1 := RaceStep(crc, r, ReadChunk(0, |q|));
    RaceOne(crc, r1, Check(0));
    assert [] + q == q;
    assert r1.loads[0].got == q;
    ErasedFirstByte(r.slot.disk.At(t));
  }

  lemma EndIsOrdinary(crc: Crc, k: nat, r: Race, q: seq<u8>)
    requires 0 in r.loads && r.loads[0].commits == r.commits
    ensures AllOrdinary(crc, k, r, [ReadChunk(0, |q|), Check(0)])
  {
    var end := [ReadChunk(0, |q|), Check(0)];
    assert end[1..] == [Check(0)] && end[1..][1..] == [];
    assert AllOrdinary(crc, k, RaceStep(crc, r, ReadChunk(0, |q|)), [Check(0)]);
  }
}
