/**
 A power cut at any byte of any flash operation leaves the last committed payload, or the one
 whose header was being written (slice_store_core.rs).
 */
module CrashConsistency {
  import opened Wrappers
  import opened SliceLayout
  import opened BankFormat
  import opened SlotMachine

  const SEQ_LIMIT := 0x1_0000_0000

  // ---- What load makes of a disk ----

  /** The result of a load that can only use bank `i`. */
  function Alone(crc: Crc, d: Disk, i: Bank): Option<seq<u8>> {
    if Valid(crc, d.At(i)) then Some(Payload(d.At(i))) else None
  }

  lemma LoadWithout(crc: Crc, d: Disk, t: Bank)
    requires !Valid(crc, d.At(t))
    ensures LoadResult(crc, d) == Alone(crc, d, 1 - t)
    ensures LoadBank(crc, d) == if Valid(crc, d.At(1 - t)) then Some(1 - t) else None
  {
    hide Decode;
    var found := Candidates(d);
    if |found| == 2 {
      assert found[1..] == [found[1]];
      assert FirstValid(crc, d, found[1..]) == if Valid(crc, d.At(found[1])) then Some(found[1]) else None;
    }
  }

  lemma LoadNewest(crc: Crc, d: Disk, t: Bank)
    requires Valid(crc, d.At(t))
    requires Candidate(d.At(1 - t)) ==> SeqOf(d.At(1 - t)) < SeqOf(d.At(t))
    ensures LoadBank(crc, d) == Some(t) && LoadResult(crc, d) == Some(Payload(d.At(t)))
    ensures Newest(d) == Some(t)
  {
  }

  // ---- A bank on its way to a commit ----

  /** A bank holding `data` under the first `cut` bytes of header `h`, erased elsewhere. */
  function Staged(n: nat, h: BankHeader, data: seq<u8>, cut: nat): (b: seq<u8>)
    requires cut <= BANK_HEADER_BYTES && BANK_HEADER_BYTES + |data| <= n
    ensures |b| == n
  {
    TornBank(h, data + Blank(n - BANK_HEADER_BYTES - |data|), cut)
  }

  /** The next header byte lands on an erased byte and extends the header by one. */
  lemma StageHeaderByte(n: nat, h: BankHeader, data: seq<u8>, cut: nat)
    requires cut < BANK_HEADER_BYTES && BANK_HEADER_BYTES + |data| <= n
    ensures Staged(n, h, data, cut)[cut] == ERASED_BYTE
    ensures ProgramByte(Staged(n, h, data, cut), cut, Encode(h)[cut]) == Staged(n, h, data, cut + 1)
  {
    NorAndErased(Encode(h)[cut]);
    var a, b := Staged(n, h, data, cut), Staged(n, h, data, cut + 1);
    assert Encode(h)[..cut + 1] == Encode(h)[..cut] + [Encode(h)[cut]];
    assert forall i | 0 <= i < n && i != cut :: a[i] == b[i];
  }

  /** The next payload byte lands on an erased byte and extends the payload by one. */
  lemma StagePayloadByte(n: nat, h: BankHeader, data: seq<u8>, v: u8)
    requires BANK_HEADER_BYTES + |data| < n
    ensures var off := BANK_HEADER_BYTES + |data|;
            && Staged(n, h, data, 0)[off] == ERASED_BYTE
            && ProgramByte(Staged(n, h, data, 0), off, v) == Staged(n, h, data + [v], 0)
  {
    NorAndErased(v);
    var off := BANK_HEADER_BYTES + |data|;
    var a, b := Staged(n, h, data, 0), Staged(n, h, data + [v], 0);
    assert forall i | 0 <= i < n && i != off :: a[i] == b[i];
  }

  /** What a load makes of a bank whose header is being written. */
  lemma StagedBank(crc: Crc, n: nat, h: BankHeader, data: seq<u8>, cut: nat)
    requires cut <= BANK_HEADER_BYTES && BANK_HEADER_BYTES + |data| <= n <= MAX_BANK_BYTES
    requires h.len == |data| && h.crc == crc(0, data)
    ensures var b := Staged(n, h, data, cut);
            && (Candidate(b) ==> SeqOf(b) == h.seqNo && Payload(b) == data)
            && (cut == BANK_HEADER_BYTES ==> Valid(crc, b))
            && (cut == 0 ==> !Candidate(b))
  {
    var body := data + Blank(n - BANK_HEADER_BYTES - |data|);
    assert body[..h.len] == data;
    TornHeader(crc, h, body, cut);
    if cut == BANK_HEADER_BYTES {
      assert Staged(n, h, data, cut) == Encode(h) + body;
    }
    if cut == 0 {
      ErasedFirstByte(Staged(n, h, data, cut));
    }
  }

  // ---- The invariant ----

  predicate Sized(n: nat, d: Disk) {
    BANK_HEADER_BYTES <= n <= MAX_BANK_BYTES && |d.bank0| == n && |d.bank1| == n
  }

  /** Candidate banks have distinct sequence numbers, none above the count of sessions begun. */
  predicate Sequenced(k: nat, d: Disk) {
    && (Candidate(d.bank0) && Candidate(d.bank1) ==> SeqOf(d.bank0) != SeqOf(d.bank1))
    && (Candidate(d.bank0) ==> SeqOf(d.bank0) <= k)
    && (Candidate(d.bank1) ==> SeqOf(d.bank1) <= k)
  }

  /** The bank a session will not touch before its commit is enough for a load. */
  predicate Keeps(crc: Crc, k: nat, s: Slot, r: Register, ss: Session) {
    var other := s.disk.At(1 - ss.target);
    && s.loaded
    && (s.served.bank.Some? ==> s.served.bank.value == 1 - ss.target && Valid(crc, other))
    && Alone(crc, s.disk, 1 - ss.target) in r.possible
    && (Candidate(other) ==> SeqOf(other) < ss.seqNo)
    && (ss.stale.Some? ==> ss.stale.value == 1 - ss.target)
    && ss.seqNo <= k
  }

  /** The session's target holds what the session was given, under `cut` bytes of its header. */
  predicate Holds(crc: Crc, n: nat, s: Slot, ss: Session, given: seq<u8>, extra: seq<u8>, cut: nat)
    requires cut <= BANK_HEADER_BYTES
  {
    && !ss.failed
    && ss.written == |given|
    && ss.crc == crc(0, given)
    && BANK_HEADER_BYTES + |given + extra| <= n
    && s.disk.At(ss.target) == Staged(n, HeaderOf(ss), given + extra, cut)
  }

  predicate PhaseInv(crc: Crc, n: nat, k: nat, s: Slot, r: Register)
    requires Sized(n, s.disk)
  {
    match s.phase
    case Idle =>
      && LoadResult(crc, s.disk) in r.possible
      && (s.served.bank.Some? ==> Alone(crc, s.disk, s.served.bank.value).Some?
                                  && Alone(crc, s.disk, s.served.bank.value) in r.possible)
    case Erasing(ss, pos) =>
      && LoadResult(crc, s.disk) in r.possible && Keeps(crc, k, s, r, ss)
      && pos <= n && IsBlank(s.disk.At(ss.target)[..pos])
      && ss.written == 0 && ss.crc == 0 && !ss.failed && r.building == []
    case Open(ss) =>
      && Keeps(crc, k, s, r, ss)
      && (if ss.failed then IsBlank(s.disk.At(ss.target)[..BANK_HEADER_BYTES])
          else Holds(crc, n, s, ss, r.building, [], 0))
    case Appending(ss, chunk, pos) =>
      && Keeps(crc, k, s, r, ss)
      && pos <= |chunk| && BANK_HEADER_BYTES + ss.written + |chunk| <= n
      && Holds(crc, n, s, ss, r.building, chunk[..pos], 0)
    case WritingHeader(ss, pos) =>
      && Keeps(crc, k, s, r, ss) && Some(r.building) in r.possible
      && pos <= BANK_HEADER_BYTES && Holds(crc, n, s, ss, r.building, [], pos)
    case ErasingStale(ss, pos) =>
      && s.loaded && ss.seqNo <= k && r.possible == {Some(r.building)}
      && s.served.bank == Some(ss.target) && ss.stale == Some(1 - ss.target)
      && Holds(crc, n, s, ss, r.building, [], BANK_HEADER_BYTES)
      && (Candidate(s.disk.At(1 - ss.target)) ==> SeqOf(s.disk.At(1 - ss.target)) < ss.seqNo)
      && pos <= n && IsBlank(s.disk.At(1 - ss.target)[..pos])
  }

  /** What every step keeps; `k` is the number of sessions begun. */
  predicate Inv(crc: Crc, n: nat, k: nat, s: Slot, r: Register) {
    && Sized(n, s.disk) && Sequenced(k, s.disk)
    && (s.served.bank.None? && s.loaded ==> None in r.possible)
    && (s.erased.Some? ==> s.phase.Idle? && IsBlank(s.disk.At(s.erased.value))
                           && s.served.bank == Some(1 - s.erased.value))
    && PhaseInv(crc, n, k, s, r)
  }

  /** The invariant says what a load may find now. */
  lemma InvLoads(crc: Crc, n: nat, k: nat, s: Slot, r: Register)
    requires Inv(crc, n, k, s, r)
    ensures LoadResult(crc, s.disk) in r.possible
  {
    match s.phase
    case Idle =>
    case Erasing(ss, pos) =>
    case Open(ss) =>
      OpenBankIsNone(crc, n, s, r, ss);
      LoadWithout(crc, s.disk, ss.target);
    case Appending(ss, chunk, pos) =>
      ErasedFirstByte(s.disk.At(ss.target));
      LoadWithout(crc, s.disk, ss.target);
    case WritingHeader(ss, pos) =>
      HeldBank(crc, n, s, ss, r.building, pos);
      HeaderLoads(crc, s.disk, ss.target);
    case ErasingStale(ss, pos) =>
      HeldBank(crc, n, s, ss, r.building, BANK_HEADER_BYTES);
      LoadNewest(crc, s.disk, ss.target);
  }

  lemma OpenBankIsNone(crc: Crc, n: nat, s: Slot, r: Register, ss: Session)
    requires Sized(n, s.disk)
    requires if ss.failed then IsBlank(s.disk.At(ss.target)[..BANK_HEADER_BYTES])
             else Holds(crc, n, s, ss, r.building, [], 0)
    ensures !Candidate(s.disk.At(ss.target))
  {
    var b := s.disk.At(ss.target);
    assert b[0] == b[..BANK_HEADER_BYTES][0];
    ErasedFirstByte(b);
  }

  lemma HeldBank(crc: Crc, n: nat, s: Slot, ss: Session, given: seq<u8>, cut: nat)
    requires cut <= BANK_HEADER_BYTES && n <= MAX_BANK_BYTES && Holds(crc, n, s, ss, given, [], cut)
    ensures var b := s.disk.At(ss.target);
            && (Candidate(b) ==> SeqOf(b) == ss.seqNo && Payload(b) == given)
            && (cut == BANK_HEADER_BYTES ==> Valid(crc, b))
            && (cut == 0 ==> !Candidate(b))
  {
    assert given + [] == given;
    StagedBank(crc, n, HeaderOf(ss), given, cut);
  }

  lemma HeaderLoads(crc: Crc, d: Disk, t: Bank)
    requires Candidate(d.At(t)) && Candidate(d.At(1 - t)) ==> SeqOf(d.At(1 - t)) < SeqOf(d.At(t))
    ensures LoadResult(crc, d) == Alone(crc, d, if Valid(crc, d.At(t)) then t else 1 - t)
  {
    if Valid(crc, d.At(t)) {
      LoadNewest(crc, d, t);
    } else {
      LoadWithout(crc, d, t);
    }
  }

  // ---- Every step keeps it ----

  lemma StepKeeps(crc: Crc, n: nat, k: nat, s: Slot, r: Register, a: Action)
    requires Chains(crc) && Inv(crc, n, k, s, r)
    requires a.BeginWrite? ==> s.loaded && k + 1 < SEQ_LIMIT
    ensures Inv(crc, n, if a.BeginWrite? then k + 1 else k, Step(crc, s, a), RegisterStep(crc, r, s, a))
  {
    hide Decode, Encode, LoadBank, LoadResult, Candidates;
    InvLoads(crc, n, k, s, r);
    match a
    case Load => LoadKeeps(crc, n, k, s, r);
    case LoadFrom(i) => LoadFromKeeps(crc, n, k, s, r, i);
    case BeginWrite => BeginKeeps(crc, n, k, s, r);
    case EraseStep => EraseKeeps(crc, n, k, s, r);
    case AppendStep => AppendKeeps(crc, n, k, s, r);
    case HeaderStep => HeaderKeeps(crc, n, k, s, r);
    case StaleStep => StaleKeeps(crc, n, k, s, r);
    case _ => CallKeeps(crc, n, k, s, r, a);
  }

  /** The steps that touch no flash. */
  lemma CallKeeps(crc: Crc, n: nat, k: nat, s: Slot, r: Register, a: Action)
    requires Inv(crc, n, k, s, r) && LoadResult(crc, s.disk) in r.possible
    requires a.PowerCut? || a.EraseFails? || a.Append? || a.AppendFails? || a.Commit? || a.HeaderFails?
             || a.StaleFails? || a.Abort?
    ensures Inv(crc, n, k, Step(crc, s, a), RegisterStep(crc, r, s, a))
  {
    hide Decode, Encode, LoadBank, LoadResult, Candidates;
    if a.Append? {
      assert a.chunk[..0] == [];
    } else if a.StaleFails? && s.phase.ErasingStale? {
      HeldBank(crc, n, s, s.phase.s, r.building, BANK_HEADER_BYTES);
    }
  }

  lemma LoadKeeps(crc: Crc, n: nat, k: nat, s: Slot, r: Register)
    requires Inv(crc, n, k, s, r)
    ensures Inv(crc, n, k, Step(crc, s, Load), RegisterStep(crc, r, s, Load))
  {
    hide Decode, Encode, Candidates;
    LoadFinds(crc, s.disk);
    if s.erased.Some? {
      ErasedFirstByte(s.disk.At(s.erased.value));
    }
    if s.phase.Open? {
      OpenBankIsNone(crc, n, s, r, s.phase.s);
      LoadWithout(crc, s.disk, s.phase.s.target);
    }
  }

  lemma LoadFromKeeps(crc: Crc, n: nat, k: nat, s: Slot, r: Register, i: Bank)
    requires Inv(crc, n, k, s, r)
    ensures Inv(crc, n, k, Step(crc, s, LoadFrom(i)), RegisterStep(crc, r, s, LoadFrom(i)))
  {
    hide Decode, Encode, Candidates, LoadResult, Staged;
    if s.erased.Some? {
      ErasedFirstByte(s.disk.At(s.erased.value));
    }
    if s.phase.Open? {
      OpenBankIsNone(crc, n, s, r, s.phase.s);
    }
  }

  lemma BeginKeeps(crc: Crc, n: nat, k: nat, s: Slot, r: Register)
    requires Chains(crc) && Inv(crc, n, k, s, r) && s.loaded && k + 1 < SEQ_LIMIT
    ensures Inv(crc, n, k + 1, Step(crc, s, BeginWrite), RegisterStep(crc, r, s, BeginWrite))
  {
    hide Decode, Encode, LoadBank, LoadResult, Candidates, Newest, NextSeq, Staged, HeaderOf, Candidate, BeginSession;
    hide Alone, Valid, IsBlank, Chains;
    if s.phase.Idle? {
      var ss := BeginSession(s);
      BeginChoice(crc, n, k, s, r);
      SessionIsFresh(crc, s);
      if s.erased == Some(ss.target) || IsBlank(s.disk.At(ss.target)) {
        BlankIsStaged(n, HeaderOf(ss), s.disk.At(ss.target));
        var nothing: seq<u8> := [];
        assert nothing + nothing == nothing;
        assert Holds(crc, n, s, ss, nothing, nothing, 0);
      }
    }
  }

  lemma SessionIsFresh(crc: Crc, s: Slot)
    requires Chains(crc)
    ensures var ss := BeginSession(s); !ss.failed && ss.written == 0 && ss.crc == 0 == crc(0, [])
    ensures IsBlank(s.disk.At(BeginSession(s).target)[..0])
  {
  }

  /** The bank a session keeps is the one a load would read, whenever a load has proved one. */
  lemma BeginChoice(crc: Crc, n: nat, k: nat, s: Slot, r: Register)
    requires Inv(crc, n, k, s, r) && s.phase.Idle? && s.loaded && k + 1 < SEQ_LIMIT
    ensures Keeps(crc, k + 1, s, r, BeginSession(s))
  {
    hide Decode, Encode, LoadBank, LoadResult, Candidates, Newest;
    NewestIsMaximal(k, s.disk);
    var i := BeginSession(s).target;
    if s.served.bank.None? && Newest(s.disk).Some? && Valid(crc, s.disk.At(1 - i)) {
      LoadNewest(crc, s.disk, 1 - i);
    }
  }

  lemma NewestIsMaximal(k: nat, d: Disk)
    requires Sequenced(k, d)
    ensures Newest(d).None? ==> !Candidate(d.bank0) && !Candidate(d.bank1)
    ensures Newest(d).Some? ==>
              var i := Newest(d).value;
              && Candidate(d.At(i))
              && (Candidate(d.At(1 - i)) ==> SeqOf(d.At(1 - i)) < SeqOf(d.At(i)))
  {
    hide Decode;
  }

  /** A load finds a bank exactly when one is valid. */
  lemma LoadFinds(crc: Crc, d: Disk)
    ensures LoadBank(crc, d).None? <==> !Valid(crc, d.bank0) && !Valid(crc, d.bank1)
  {
    hide Decode;
    if !Valid(crc, d.bank0) {
      LoadWithout(crc, d, 0);
    } else if !Valid(crc, d.bank1) {
      LoadWithout(crc, d, 1);
    }
  }

  lemma BlankIsStaged(n: nat, h: BankHeader, b: seq<u8>)
    requires BANK_HEADER_BYTES <= n == |b| && IsBlank(b)
    ensures b == Staged(n, h, [], 0)
  {
    hide Encode;
  }

  lemma EraseKeeps(crc: Crc, n: nat, k: nat, s: Slot, r: Register)
    requires Chains(crc) && Inv(crc, n, k, s, r)
    ensures Inv(crc, n, k, Step(crc, s, EraseStep), RegisterStep(crc, r, s, EraseStep))
  {
    hide Decode, Encode, LoadBank, LoadResult, Candidates, Staged, HeaderOf, EraseByte, BeginSession;
    if s.phase.Erasing? {
      var Erasing(ss, pos) := s.phase;
      var b := s.disk.At(ss.target);
      var s' := Step(crc, s, EraseStep);
      if pos < n {
        EraseExtends(b, pos);
        ErasedFirstByte(s'.disk.At(ss.target));
        LoadWithout(crc, s'.disk, ss.target);
      } else {
        assert b[..pos] == b;
        BlankIsStaged(n, HeaderOf(ss), b);
        var nothing: seq<u8> := [];
        assert nothing + nothing == nothing;
      }
    }
  }

  lemma EraseExtends(b: seq<u8>, pos: nat)
    requires pos < |b| && IsBlank(b[..pos])
    ensures var b' := EraseByte(b, pos); b'[0] == ERASED_BYTE && IsBlank(b'[..pos + 1])
  {
    var b' := EraseByte(b, pos);
    assert b'[..pos + 1] == b[..pos] + [ERASED_BYTE];
    assert b'[0] == b'[..pos + 1][0];
  }

  lemma AppendKeeps(crc: Crc, n: nat, k: nat, s: Slot, r: Register)
    requires Chains(crc) && Inv(crc, n, k, s, r)
    ensures Inv(crc, n, k, Step(crc, s, AppendStep), RegisterStep(crc, r, s, AppendStep))
  {
    hide Decode, Encode, LoadBank, LoadResult, Candidates, Chains;
    hide ProgramByte, Staged, HeaderOf;
    if s.phase.Appending? {
      if s.phase.pos < |s.phase.chunk| {
        AppendByte(crc, n, s, r);
      } else {
        AppendDone(crc, n, s, r);
      }
    }
  }

  /** One payload byte programmed. */
  lemma AppendByte(crc: Crc, n: nat, s: Slot, r: Register)
    requires s.phase.Appending? && s.phase.pos < |s.phase.chunk| && Sized(n, s.disk)
    requires BANK_HEADER_BYTES + s.phase.s.written + |s.phase.chunk| <= n
    requires Holds(crc, n, s, s.phase.s, r.building, s.phase.chunk[..s.phase.pos], 0)
    ensures var s' := Step(crc, s, AppendStep);
            && Sized(n, s'.disk)
            && Holds(crc, n, s', s.phase.s, r.building, s.phase.chunk[..s.phase.pos + 1], 0)
            && !Candidate(s'.disk.At(s.phase.s.target))
  {
    hide Decode, Encode;
    var Appending(ss, chunk, pos) := s.phase;
    var data := r.building + chunk[..pos];
    StagePayloadByte(n, HeaderOf(ss), data, chunk[pos]);
    assert r.building + chunk[..pos + 1] == data + [chunk[pos]];
    ErasedFirstByte(Step(crc, s, AppendStep).disk.At(ss.target));
  }

  /** A chunk that is wholly programmed joins the session's checksum. */
  lemma AppendDone(crc: Crc, n: nat, s: Slot, r: Register)
    requires Chains(crc) && s.phase.Appending? && s.phase.pos == |s.phase.chunk|
    requires Holds(crc, n, s, s.phase.s, r.building, s.phase.chunk[..s.phase.pos], 0)
    ensures var s' := Step(crc, s, AppendStep);
            s'.phase.Open? && Holds(crc, n, s', s'.phase.s, r.building + s.phase.chunk, [], 0)
  {
    hide Decode, Encode;
    var Appending(ss, chunk, pos) := s.phase;
    assert chunk[..pos] == chunk;
    assert r.building + chunk + [] == r.building + chunk;
  }

  lemma HeaderKeeps(crc: Crc, n: nat, k: nat, s: Slot, r: Register)
    requires Inv(crc, n, k, s, r)
    ensures Inv(crc, n, k, Step(crc, s, HeaderStep), RegisterStep(crc, r, s, HeaderStep))
  {
    hide Decode, Encode, LoadBank, LoadResult, Candidates;
    hide ProgramByte, Staged, HeaderOf;
    if s.phase.WritingHeader? {
      var WritingHeader(ss, pos) := s.phase;
      if pos < BANK_HEADER_BYTES {
        HeaderByte(crc, n, s, r);
      } else {
        HeldBank(crc, n, s, ss, r.building, pos);
        LoadNewest(crc, s.disk, ss.target);
      }
    }
  }

  /** One header byte programmed. */
  lemma HeaderByte(crc: Crc, n: nat, s: Slot, r: Register)
    requires Sized(n, s.disk) && s.phase.WritingHeader? && s.phase.pos < BANK_HEADER_BYTES
    requires Holds(crc, n, s, s.phase.s, r.building, [], s.phase.pos)
    ensures var s', ss := Step(crc, s, HeaderStep), s.phase.s;
            && Sized(n, s'.disk)
            && Holds(crc, n, s', ss, r.building, [], s.phase.pos + 1)
            && (Candidate(s'.disk.At(ss.target)) ==> SeqOf(s'.disk.At(ss.target)) == ss.seqNo)
  {
    hide Decode, Encode, Staged;
    var WritingHeader(ss, pos) := s.phase;
    StageHeaderByte(n, HeaderOf(ss), r.building + [], pos);
    HeldBank(crc, n, Step(crc, s, HeaderStep), ss, r.building, pos + 1);
  }

  lemma StaleKeeps(crc: Crc, n: nat, k: nat, s: Slot, r: Register)
    requires Inv(crc, n, k, s, r)
    ensures Inv(crc, n, k, Step(crc, s, StaleStep), RegisterStep(crc, r, s, StaleStep))
  {
    hide Decode, Encode, LoadBank, LoadResult, Candidates;
    if s.phase.ErasingStale? {
      var ErasingStale(ss, pos) := s.phase;
      var b := s.disk.At(1 - ss.target);
      HeldBank(crc, n, s, ss, r.building, BANK_HEADER_BYTES);
      if pos < n {
        EraseExtends(b, pos);
        ErasedFirstByte(EraseByte(b, pos));
      } else {
        assert b[..pos] == b;
        LoadNewest(crc, s.disk, ss.target);
      }
    }
  }

  // ---- Whole runs ----

  lemma {:induction false} RunKeeps(crc: Crc, n: nat, k: nat, s: Slot, r: Register, run: seq<Action>)
    requires Chains(crc) && Inv(crc, n, k, s, r)
    requires Disciplined(crc, s, run) && k + Begins(run) < SEQ_LIMIT
    ensures Inv(crc, n, k + Begins(run), Exec(crc, s, run), RegisterExec(crc, r, s, run))
    decreases |run|
  {
    hide Inv, Step, RegisterStep;
    if run != [] {
      var a := run[0];
      StepKeeps(crc, n, k, s, r, a);
      RunKeeps(crc, n, if a.BeginWrite? then k + 1 else k, Step(crc, s, a), RegisterStep(crc, r, s, a), run[1..]);
    }
  }

  lemma BlankSlotInv(crc: Crc, n: nat)
    requires BANK_HEADER_BYTES <= n <= MAX_BANK_BYTES
    ensures Inv(crc, n, 0, BlankSlot(n), EMPTY_REGISTER)
  {
    ErasedFirstByte(Blank(n));
    LoadWithout(crc, BlankSlot(n).disk, 0);
  }

  /**
   Crash consistency: after any run over any number of boots, cut after any byte, a load gives the
   last committed or loaded payload or one whose header write has started since.
   */
  lemma CrashConsistent(crc: Crc, n: nat, run: seq<Action>)
    requires Chains(crc) && BANK_HEADER_BYTES <= n <= MAX_BANK_BYTES
    requires Disciplined(crc, BlankSlot(n), run) && Begins(run) < SEQ_LIMIT
    ensures LoadResult(crc, Exec(crc, BlankSlot(n), run).disk)
            in RegisterExec(crc, EMPTY_REGISTER, BlankSlot(n), run).possible
  {
    hide Inv;
    BlankSlotInv(crc, n);
    RunKeeps(crc, n, 0, BlankSlot(n), EMPTY_REGISTER, run);
    InvLoads(crc, n, Begins(run), Exec(crc, BlankSlot(n), run), RegisterExec(crc, EMPTY_REGISTER, BlankSlot(n), run));
  }

  /** A run in which a header write fails only because power is lost, and no read does. */
  predicate FailsOnlyByPower(run: seq<Action>) {
    forall i | 0 <= i < |run| :: !run[i].HeaderFails? && !run[i].LoadFrom?
  }

  /** A write in flight or unresolved leaves two results, anything else exactly one. */
  predicate Resolved(s: Slot, r: Register) {
    && (!s.phase.Idle? ==> s.loaded)
    && 1 <= |r.possible| <= 2
    && (s.loaded && !s.phase.WritingHeader? ==> |r.possible| == 1)
  }

  lemma {:induction false} RunResolves(crc: Crc, s: Slot, r: Register, run: seq<Action>)
    requires Resolved(s, r) && Disciplined(crc, s, run) && FailsOnlyByPower(run)
    ensures Resolved(Exec(crc, s, run), RegisterExec(crc, r, s, run))
    decreases |run|
  {
    hide LoadBank, LoadResult, BeginSession, Encode;
    if run != [] {
      var a := run[0];
      if a.Commit? && s.phase.Open? && !s.phase.s.failed {
        assert |r.possible + {Some(r.building)}| <= |r.possible| + 1;
      }
      RunResolves(crc, Step(crc, s, a), RegisterStep(crc, r, s, a), run[1..]);
    }
  }

  /** With power cuts as the only failures there is never more than the old and the new payload to find. */
  lemma OldOrNew(crc: Crc, n: nat, run: seq<Action>)
    requires Disciplined(crc, BlankSlot(n), run) && FailsOnlyByPower(run)
    ensures Resolved(Exec(crc, BlankSlot(n), run), RegisterExec(crc, EMPTY_REGISTER, BlankSlot(n), run))
  {
    RunResolves(crc, BlankSlot(n), EMPTY_REGISTER, run);
  }

  /** Once a payload was committed or loaded, no later load of any run reports the slice missing. */
  lemma NeverMissing(crc: Crc, n: nat, run: seq<Action>, later: seq<Action>)
    requires Chains(crc) && BANK_HEADER_BYTES <= n <= MAX_BANK_BYTES
    requires Disciplined(crc, BlankSlot(n), run + later) && Begins(run + later) < SEQ_LIMIT
    requires None !in RegisterExec(crc, EMPTY_REGISTER, BlankSlot(n), run).possible
    ensures LoadResult(crc, Exec(crc, BlankSlot(n), run + later).disk).Some?
  {
    hide Inv, Step, RegisterStep;
    BlankSlotInv(crc, n);
    RunSplits(crc, BlankSlot(n), EMPTY_REGISTER, run, later);
    var s, r := Exec(crc, BlankSlot(n), run), RegisterExec(crc, EMPTY_REGISTER, BlankSlot(n), run);
    RunKeeps(crc, n, 0, BlankSlot(n), EMPTY_REGISTER, run);
    StaysPresent(crc, n, Begins(run), s, r, later);
  }

  lemma {:induction false} RunSplits(crc: Crc, s: Slot, r: Register, run: seq<Action>, later: seq<Action>)
    ensures Exec(crc, s, run + later) == Exec(crc, Exec(crc, s, run), later)
    ensures RegisterExec(crc, r, s, run + later)
            == RegisterExec(crc, RegisterExec(crc, r, s, run), Exec(crc, s, run), later)
    ensures Disciplined(crc, s, run + later) <==> Disciplined(crc, s, run) && Disciplined(crc, Exec(crc, s, run), later)
    ensures Begins(run + later) == Begins(run) + Begins(later)
    decreases |run|
  {
    hide Step, RegisterStep;
    if run == [] {
      assert run + later == later;
    } else {
      assert (run + later)[1..] == run[1..] + later;
      RunSplits(crc, Step(crc, s, run[0]), RegisterStep(crc, r, s, run[0]), run[1..], later);
    }
  }

  lemma {:induction false} StaysPresent(crc: Crc, n: nat, k: nat, s: Slot, r: Register, run: seq<Action>)
    requires Chains(crc) && Inv(crc, n, k, s, r) && None !in r.possible
    requires Disciplined(crc, s, run) && k + Begins(run) < SEQ_LIMIT
    ensures LoadResult(crc, Exec(crc, s, run).disk).Some?
    decreases |run|
  {
    hide Inv, Step, LoadResult;
    InvLoads(crc, n, k, s, r);
    if run != [] {
      var a := run[0];
      StepKeeps(crc, n, k, s, r, a);
      StaysPresent(crc, n, if a.BeginWrite? then k + 1 else k, Step(crc, s, a), RegisterStep(crc, r, s, a), run[1..]);
    }
  }

  /** Every byte a session programs was erased, also when the `erased` memory let it skip the scan. */
  lemma ProgramsOnlyErased(crc: Crc, n: nat, run: seq<Action>)
    requires Chains(crc) && BANK_HEADER_BYTES <= n <= MAX_BANK_BYTES
    requires Disciplined(crc, BlankSlot(n), run) && Begins(run) < SEQ_LIMIT
    ensures var s := Exec(crc, BlankSlot(n), run);
            && (s.phase.Appending? && s.phase.pos < |s.phase.chunk| ==>
                  var off := BANK_HEADER_BYTES + s.phase.s.written + s.phase.pos;
                  off < n && |s.disk.At(s.phase.s.target)| == n && s.disk.At(s.phase.s.target)[off] == ERASED_BYTE)
            && (s.phase.WritingHeader? && s.phase.pos < BANK_HEADER_BYTES ==>
                  |s.disk.At(s.phase.s.target)| == n && s.disk.At(s.phase.s.target)[s.phase.pos] == ERASED_BYTE)
  {
    hide Step, RegisterStep, Encode, Decode, LoadBank, LoadResult;
    BlankSlotInv(crc, n);
    RunKeeps(crc, n, 0, BlankSlot(n), EMPTY_REGISTER, run);
    var s, r := Exec(crc, BlankSlot(n), run), RegisterExec(crc, EMPTY_REGISTER, BlankSlot(n), run);
    if s.phase.WritingHeader? && s.phase.pos < BANK_HEADER_BYTES {
      StageHeaderByte(n, HeaderOf(s.phase.s), r.building + [], s.phase.pos);
    }
  }
}
