/**
 One slot of the store as a machine that programs and erases its flash one byte at a time,
 so that a power cut can fall between any two bytes (slice_store_core.rs).
 */
module SlotMachine {
  import opened Wrappers
  import opened SliceLayout
  import opened BankFormat

  datatype Disk = Disk(bank0: seq<u8>, bank1: seq<u8>) {
    function At(i: Bank): seq<u8> {
      if i == 0 then bank0 else bank1
    }

    function With(i: Bank, b: seq<u8>): Disk {
      if i == 0 then Disk(b, bank1) else Disk(bank0, b)
    }
  }

  // ---- Reading ----

  /** The candidate banks, the highest sequence number first. */
  function Candidates(d: Disk): seq<Bank> {
    var c0, c1 := Candidate(d.bank0), Candidate(d.bank1);
    if c0 && c1 then (if SeqOf(d.bank1) > SeqOf(d.bank0) then [1, 0] else [0, 1])
    else if c0 then [0]
    else if c1 then [1]
    else []
  }

  function Newest(d: Disk): Option<Bank> {
    var found := Candidates(d);
    if found == [] then None else Some(found[0])
  }

  function FirstValid(crc: Crc, d: Disk, found: seq<Bank>): Option<Bank> {
    if found == [] then None
    else if Valid(crc, d.At(found[0])) then Some(found[0])
    else FirstValid(crc, d, found[1..])
  }

  /** The bank `load` reads from. */
  function LoadBank(crc: Crc, d: Disk): (r: Option<Bank>)
    ensures r.Some? ==> Valid(crc, d.At(r.value))
  {
    FirstValidIsValid(crc, d, Candidates(d));
    FirstValid(crc, d, Candidates(d))
  }

  lemma FirstValidIsValid(crc: Crc, d: Disk, found: seq<Bank>)
    ensures var r := FirstValid(crc, d, found); r.Some? ==> Valid(crc, d.At(r.value))
  {
  }

  /** What `load` returns; `None` is the source's Missing. */
  function LoadResult(crc: Crc, d: Disk): Option<seq<u8>> {
    match LoadBank(crc, d)
    case Some(i) => Some(Payload(d.At(i)))
    case None => None
  }

  // ---- The volatile side of a slot ----

  /** Commits are counted in the 24 bits beside the bank. */
  const GENERATIONS := 0x100_0000

  /** The bank a load or a commit proved, and the count of commits. */
  datatype Served = Served(generation: nat, bank: Option<Bank>) {
    function Committed(b: Bank): Served {
      Served((generation + 1) % GENERATIONS, Some(b))
    }

    function ReadUnlessMoved(seen: Served, b: Bank): Served {
      if this == seen then Served(seen.generation, Some(b)) else this
    }
  }

  datatype Session = Session(
    target: Bank, stale: Option<Bank>, seqNo: u32, written: nat, crc: u32, failed: bool)

  /** Between calls a slot is Idle or has an Open session; the other phases are inside a flash operation. */
  datatype Phase =
    | Idle
    | Erasing(s: Session, pos: nat)
    | Open(s: Session)
    | Appending(s: Session, chunk: seq<u8>, pos: nat)
    | WritingHeader(s: Session, pos: nat)
    | ErasingStale(s: Session, pos: nat)

  /** `loaded` records that a load has completed since the last boot. */
  datatype Slot = Slot(disk: Disk, served: Served, erased: Option<Bank>, phase: Phase, loaded: bool)

  /** `LoadFrom` is a load that passed over a newer bank because a read of it failed. */
  datatype Action =
    | PowerCut
    | Load
    | LoadFrom(bank: Bank)
    | BeginWrite
    | EraseStep
    | EraseFails
    | Append(chunk: seq<u8>)
    | AppendStep
    | AppendFails
    | Commit
    | HeaderStep
    | HeaderFails
    | StaleStep
    | StaleFails
    | Abort

  function ProgramByte(b: seq<u8>, off: nat, v: u8): (r: seq<u8>)
    ensures |r| == |b|
  {
    if off < |b| then b[off := NorAnd(b[off], v)] else b
  }

  function EraseByte(b: seq<u8>, off: nat): (r: seq<u8>)
    ensures |r| == |b|
  {
    if off < |b| then b[off := ERASED_BYTE] else b
  }

  function NextSeq(d: Disk): u32 {
    match Newest(d)
    case Some(i) => (SeqOf(d.At(i)) + 1) % 0x1_0000_0000
    case None => 1
  }

  function BeginSession(s: Slot): Session {
    var choice := ChooseBank(s.served.bank, Newest(s.disk));
    Session(choice.target, choice.keep, NextSeq(s.disk), 0, 0, false)
  }

  function HeaderOf(ss: Session): BankHeader {
    BankHeader(ss.seqNo, ss.written % 0x1_0000_0000, ss.crc)
  }

  /** One step of the machine; an action that is not enabled leaves it as it is. */
  function Step(crc: Crc, s: Slot, a: Action): Slot {
    match a
    case PowerCut => Slot(s.disk, Served(0, None), None, Idle, false)
    case Load =>
      if s.phase.Idle? || s.phase.Open? then
        match LoadBank(crc, s.disk)
        case Some(i) => s.(served := s.served.ReadUnlessMoved(s.served, i), loaded := true)
        case None => s.(loaded := true)
      else s
    case LoadFrom(i) =>
      if (s.phase.Idle? || s.phase.Open?) && Valid(crc, s.disk.At(i))
      then s.(served := s.served.ReadUnlessMoved(s.served, i), loaded := true)
      else s
    case BeginWrite =>
      if s.phase.Idle? then
        var ss := BeginSession(s);
        if s.erased == Some(ss.target) || IsBlank(s.disk.At(ss.target))
        then s.(phase := Open(ss), erased := None)
        else s.(phase := Erasing(ss, 0))
      else s
    case EraseStep =>
      if s.phase.Erasing? then
        var Erasing(ss, pos) := s.phase;
        var b := s.disk.At(ss.target);
        if pos < |b| then s.(disk := s.disk.With(ss.target, EraseByte(b, pos)), phase := Erasing(ss, pos + 1))
        else s.(phase := Open(ss), erased := None)
      else s
    case EraseFails => if s.phase.Erasing? then s.(phase := Idle) else s
    case Append(chunk) =>
      if s.phase.Open? && !s.phase.s.failed then
        var ss := s.phase.s;
        if BANK_HEADER_BYTES + ss.written + |chunk| > |s.disk.At(ss.target)|
        then s.(phase := Open(ss.(failed := true)))
        else s.(phase := Appending(ss, chunk, 0))
      else s
    case AppendStep =>
      if s.phase.Appending? then
        var Appending(ss, chunk, pos) := s.phase;
        if pos < |chunk| then
          var b := ProgramByte(s.disk.At(ss.target), BANK_HEADER_BYTES + ss.written + pos, chunk[pos]);
          s.(disk := s.disk.With(ss.target, b), phase := Appending(ss, chunk, pos + 1))
        else s.(phase := Open(ss.(crc := crc(ss.crc, chunk), written := ss.written + |chunk|)))
      else s
    case AppendFails =>
      if s.phase.Appending? then s.(phase := Open(s.phase.s.(failed := true))) else s
    case Commit =>
      if s.phase.Open? then s.(phase := if s.phase.s.failed then Idle else WritingHeader(s.phase.s, 0))
      else s
    case HeaderStep =>
      if s.phase.WritingHeader? then
        var WritingHeader(ss, pos) := s.phase;
        if pos < BANK_HEADER_BYTES then
          var b := ProgramByte(s.disk.At(ss.target), pos, Encode(HeaderOf(ss))[pos]);
          s.(disk := s.disk.With(ss.target, b), phase := WritingHeader(ss, pos + 1))
        else s.(served := s.served.Committed(ss.target),
                phase := if ss.stale.Some? then ErasingStale(ss, 0) else Idle)
      else s
    case HeaderFails => if s.phase.WritingHeader? then s.(phase := Idle) else s
    case StaleStep =>
      if s.phase.ErasingStale? && s.phase.s.stale.Some? then
        var ErasingStale(ss, pos) := s.phase;
        var stale := ss.stale.value;
        if pos < |s.disk.At(stale)|
        then s.(disk := s.disk.With(stale, EraseByte(s.disk.At(stale), pos)), phase := ErasingStale(ss, pos + 1))
        else s.(erased := Some(stale), phase := Idle)
      else s
    case StaleFails => if s.phase.ErasingStale? then s.(phase := Idle) else s
    case Abort => if s.phase.Open? then s.(phase := Idle) else s
  }

  // ---- The reference: what a caller may find stored ----

  /**
   `possible` holds the results a load may give: the last committed or loaded one, and every
   payload whose header write has started since. `building` is what the open session was given.
   */
  datatype Register = Register(possible: set<Option<seq<u8>>>, building: seq<u8>)

  function RegisterStep(crc: Crc, r: Register, s: Slot, a: Action): Register {
    match a
    case Load =>
      if s.phase.Idle? || s.phase.Open? then r.(possible := {LoadResult(crc, s.disk)}) else r
    case LoadFrom(i) =>
      if (s.phase.Idle? || s.phase.Open?) && Valid(crc, s.disk.At(i))
      then r.(possible := r.possible + {Some(Payload(s.disk.At(i)))})
      else r
    case BeginWrite => if s.phase.Idle? then r.(building := []) else r
    case AppendStep =>
      if s.phase.Appending? && s.phase.pos >= |s.phase.chunk| then r.(building := r.building + s.phase.chunk) else r
    case Commit =>
      if s.phase.Open? && !s.phase.s.failed then r.(possible := r.possible + {Some(r.building)}) else r
    case HeaderStep =>
      if s.phase.WritingHeader? && s.phase.pos >= BANK_HEADER_BYTES then r.(possible := {Some(r.building)}) else r
    case _ => r
  }

  // ---- Runs ----

  /** A run that loads after every boot before it writes. */
  predicate Disciplined(crc: Crc, s: Slot, run: seq<Action>)
    decreases |run|
  {
    run == [] ||
    ((run[0].BeginWrite? ==> s.loaded) && Disciplined(crc, Step(crc, s, run[0]), run[1..]))
  }

  function Exec(crc: Crc, s: Slot, run: seq<Action>): Slot
    decreases |run|
  {
    if run == [] then s else Exec(crc, Step(crc, s, run[0]), run[1..])
  }

  function RegisterExec(crc: Crc, r: Register, s: Slot, run: seq<Action>): Register
    decreases |run|
  {
    if run == [] then r
    else RegisterExec(crc, RegisterStep(crc, r, s, run[0]), Step(crc, s, run[0]), run[1..])
  }

  function Begins(run: seq<Action>): nat {
    if run == [] then 0 else (if run[0].BeginWrite? then 1 else 0) + Begins(run[1..])
  }

  /** A slot on erased flash, and what a load of it may give. */
  function BlankSlot(n: nat): Slot {
    Slot(Disk(Blank(n), Blank(n)), Served(0, None), None, Idle, false)
  }

  const EMPTY_REGISTER := Register({None}, [])
}
