/** The store's calls as whole effects on a slot, and as runs of the byte-wise machine. */
module SliceCalls {
  import opened Wrappers
  import opened SliceLayout
  import opened BankFormat
  import opened SlotMachine
  import opened CrashConsistency
  import opened UnprovedWrite

  // ---- A slot's two banks within the flash ----

  predicate Fits(f: seq<u8>, g: SlotGeometry) {
    g.offset + 2 * g.bankBytes <= |f|
  }

  function DiskAt(f: seq<u8>, g: SlotGeometry): (d: Disk)
    requires Fits(f, g)
    ensures |d.bank0| == |d.bank1| == g.bankBytes
  {
    Disk(f[g.BankOffset(0)..g.BankOffset(0) + g.bankBytes], f[g.BankOffset(1)..g.BankOffset(1) + g.bankBytes])
  }

  /** The flash with one slot's banks replaced. */
  function Install(f: seq<u8>, g: SlotGeometry, d: Disk): (r: seq<u8>)
    requires Fits(f, g) && |d.bank0| == |d.bank1| == g.bankBytes
    ensures |r| == |f|
  {
    f[..g.offset] + d.bank0 + d.bank1 + f[g.offset + 2 * g.bankBytes..]
  }

  lemma InstallReads(f: seq<u8>, g: SlotGeometry, d: Disk)
    requires Fits(f, g) && |d.bank0| == |d.bank1| == g.bankBytes
    ensures DiskAt(Install(f, g, d), g) == d
    ensures Install(f, g, DiskAt(f, g)) == f
  {
  }

  lemma InstallTwice(f: seq<u8>, g: SlotGeometry, d: Disk, d': Disk)
    requires Fits(f, g) && |d.bank0| == |d.bank1| == |d'.bank0| == |d'.bank1| == g.bankBytes
    ensures Install(Install(f, g, d), g, d') == Install(f, g, d')
  {
  }

  /** A part of a bank is a part of the flash. */
  lemma BankSlice(f: seq<u8>, g: SlotGeometry, bank: Bank, o: nat, len: nat)
    requires Fits(f, g) && o + len <= g.bankBytes
    ensures g.BankOffset(bank) + o + len <= |f|
    ensures DiskAt(f, g).At(bank)[o..o + len] == f[g.BankOffset(bank) + o..g.BankOffset(bank) + o + len]
  {
    hide DiskAt;
    BankEnds(f, g, bank);
    SliceOfSlice(f, g.BankOffset(bank), g.bankBytes, o, len);
  }

  lemma SliceOfSlice(f: seq<u8>, base: nat, n: nat, o: nat, len: nat)
    requires base + n <= |f| && o + len <= n
    ensures f[base..base + n][o..o + len] == f[base + o..base + o + len]
  {
    var a, b := f[base..base + n][o..o + len], f[base + o..base + o + len];
    forall i | 0 <= i < len ensures a[i] == b[i] {
      assert a[i] == f[base..base + n][o + i] == f[base + o + i];
    }
  }

  /** A flash that differs from another within one bank only. */
  lemma BankReplaced(f: seq<u8>, g: SlotGeometry, bank: Bank, f': seq<u8>, b: seq<u8>)
    requires Fits(f, g) && |f'| == |f| && |b| == g.bankBytes && g.BankOffset(bank) + g.bankBytes <= |f|
    requires f'[..g.BankOffset(bank)] == f[..g.BankOffset(bank)]
    requires f'[g.BankOffset(bank)..g.BankOffset(bank) + g.bankBytes] == b
    requires f'[g.BankOffset(bank) + g.bankBytes..] == f[g.BankOffset(bank) + g.bankBytes..]
    ensures f' == Install(f, g, DiskAt(f, g).With(bank, b)) && DiskAt(f', g) == DiskAt(f, g).With(bank, b)
  {
    var o, n := g.BankOffset(bank), g.bankBytes;
    assert f' == f'[..o] + f'[o..o + n] + f'[o + n..];
    var d := DiskAt(f, g).With(bank, b);
    InstallReads(f, g, d);
    if bank == 0 {
      assert f[o + n..] == d.bank1 + f[g.offset + 2 * n..];
    } else {
      assert f[..o] == f[..g.offset] + d.bank0;
    }
  }

  lemma BankEnds(f: seq<u8>, g: SlotGeometry, bank: Bank)
    requires Fits(f, g)
    ensures g.BankOffset(bank) + g.bankBytes <= |f|
    ensures DiskAt(f, g).At(bank) == f[g.BankOffset(bank)..g.BankOffset(bank) + g.bankBytes]
  {
  }

  /** Programming within a bank changes that bank alone. */
  lemma ProgramBank(f: seq<u8>, g: SlotGeometry, bank: Bank, o: nat, data: seq<u8>)
    requires Fits(f, g) && o + |data| <= g.bankBytes
    ensures g.BankOffset(bank) + o + |data| <= |f|
    ensures var d := DiskAt(f, g).With(bank, Programmed(DiskAt(f, g).At(bank), o, data));
            var f' := Programmed(f, g.BankOffset(bank) + o, data);
            f' == Install(f, g, d) && DiskAt(f', g) == d
  {
    hide NorAnd, Install, DiskAt;
    BankEnds(f, g, bank);
    BankReplaced(f, g, bank, Programmed(f, g.BankOffset(bank) + o, data), Programmed(DiskAt(f, g).At(bank), o, data));
  }

  lemma EraseBank(f: seq<u8>, g: SlotGeometry, bank: Bank, cut: nat)
    requires Fits(f, g) && cut <= g.bankBytes
    ensures g.BankOffset(bank) + cut <= |f|
    ensures var d := DiskAt(f, g).With(bank, Erased(DiskAt(f, g).At(bank), 0, cut));
            var f' := Erased(f, g.BankOffset(bank), cut);
            f' == Install(f, g, d) && DiskAt(f', g) == d
  {
    hide Install, DiskAt, Erased;
    BankEnds(f, g, bank);
    ErasedParts(f, g.BankOffset(bank), g.bankBytes, cut);
    BankReplaced(f, g, bank, Erased(f, g.BankOffset(bank), cut), Erased(DiskAt(f, g).At(bank), 0, cut));
  }

  /** Erasing the start of a range leaves what is before and after it, and erases the range's own start. */
  lemma ErasedParts(f: seq<u8>, o: nat, n: nat, cut: nat)
    requires cut <= n && o + n <= |f|
    ensures var f' := Erased(f, o, cut);
            && f'[..o] == f[..o] && f'[o + n..] == f[o + n..]
            && f'[o..o + n] == Erased(f[o..o + n], 0, cut)
  {
    hide Blank;
    var f', b := Erased(f, o, cut), Erased(f[o..o + n], 0, cut);
    ErasedBytes(f, o, cut);
    ErasedBytes(f[o..o + n], 0, cut);
    assert forall i | 0 <= i < n :: f'[o..o + n][i] == f'[o + i] == b[i];
  }

  lemma ErasedBytes(f: seq<u8>, o: nat, cut: nat)
    requires o + cut <= |f|
    ensures forall i | 0 <= i < |f| :: Erased(f, o, cut)[i] == if o <= i < o + cut then ERASED_BYTE else f[i]
  {
  }

  /** A call under one key leaves what a load of any other key reads. */
  lemma NonInterference(f: seq<u8>, a: SliceKey, b: SliceKey, d: Disk)
    requires a != b && GeometryOf(a).Some? && GeometryOf(b).Some?
    requires Fits(f, GeometryOf(a).value) && Fits(f, GeometryOf(b).value)
    requires |d.bank0| == |d.bank1| == GeometryOf(a).value.bankBytes
    ensures DiskAt(Install(f, GeometryOf(a).value, d), GeometryOf(b).value) == DiskAt(f, GeometryOf(b).value)
  {
    hide GeometryOf;
    var g, h := GeometryOf(a).value, GeometryOf(b).value;
    var f' := Install(f, g, d);
    forall i: nat | h.offset <= i < h.offset + 2 * h.bankBytes ensures f'[i] == f[i] {
      if Owns(g, i) {
        DistinctKeysAreDisjoint(a, b, i);
      }
    }
  }

  // ---- Calls ----

  /** `begin_write`, whose erase stops after `cut` bytes unless `ok`. */
  function AfterBegin(crc: Crc, s: Slot, cut: nat, ok: bool): Slot
    requires cut <= |s.disk.At(BeginSession(s).target)|
  {
    var ss := BeginSession(s);
    var s1 := Step(crc, s, BeginWrite);
    if !s1.phase.Erasing? then s1
    else
      var d := s.disk.With(ss.target, Erased(s.disk.At(ss.target), 0, cut));
      if ok then s1.(disk := d, phase := Open(ss), erased := None) else s1.(disk := d, phase := Idle)
  }

  /** `append`, whose write stops after `cut` bytes unless `ok`. */
  function AfterAppend(crc: Crc, s: Slot, chunk: seq<u8>, cut: nat, ok: bool): Slot
    requires s.phase.Open? && cut <= |chunk|
  {
    var ss := s.phase.s;
    var b := s.disk.At(ss.target);
    var off := BANK_HEADER_BYTES + ss.written;
    if ss.failed then s
    else if off + |chunk| > |b| then s.(phase := Open(ss.(failed := true)))
    else
      var d := s.disk.With(ss.target, Programmed(b, off, chunk[..cut]));
      s.(disk := d,
         phase := Open(if ok then ss.(crc := crc(ss.crc, chunk), written := ss.written + |chunk|)
                       else ss.(failed := true)))
  }

  /** The header write of `commit`. */
  function AfterHeader(s: Slot, cut: nat, ok: bool): Slot
    requires s.phase.Open? && cut <= BANK_HEADER_BYTES <= |s.disk.At(s.phase.s.target)|
  {
    var ss := s.phase.s;
    var d := s.disk.With(ss.target, Programmed(s.disk.At(ss.target), 0, Encode(HeaderOf(ss))[..cut]));
    if ok then s.(disk := d, served := s.served.Committed(ss.target), phase := Idle) else s.(disk := d, phase := Idle)
  }

  /** The stale erase of `commit`. */
  function AfterStale(s: Slot, stale: Option<Bank>, cut: nat, ok: bool): Slot
    requires stale.Some? ==> cut <= |s.disk.At(stale.value)|
  {
    if stale.None? then s
    else
      var d := s.disk.With(stale.value, Erased(s.disk.At(stale.value), 0, cut));
      if ok then s.(disk := d, erased := stale) else s.(disk := d)
  }

  /** `commit`: the header, and on success the stale bank. */
  function AfterCommit(s: Slot, cut: nat, ok: bool, staleCut: nat, staleOk: bool): Slot
    requires s.phase.Open? && cut <= BANK_HEADER_BYTES
    requires BANK_HEADER_BYTES <= |s.disk.bank0| == |s.disk.bank1| && staleCut <= |s.disk.bank0|
  {
    if s.phase.s.failed then s.(phase := Idle)
    else
      var s1 := AfterHeader(s, cut, ok);
      if ok then AfterStale(s1, s.phase.s.stale, staleCut, staleOk) else s1
  }

  // ---- Each call is a run of the machine ----

  function BeginRun(cut: nat, ok: bool): seq<Action> {
    [BeginWrite] + Repeat(EraseStep, cut) + [if ok then EraseStep else EraseFails]
  }

  function AppendRun(chunk: seq<u8>, cut: nat, ok: bool): seq<Action> {
    [Append(chunk)] + Repeat(AppendStep, cut) + [if ok then AppendStep else AppendFails]
  }

  function HeaderRunOf(cut: nat, ok: bool): seq<Action> {
    [Commit] + Repeat(HeaderStep, cut) + [if ok then HeaderStep else HeaderFails]
  }

  function StaleRun(cut: nat, ok: bool): seq<Action> {
    Repeat(StaleStep, cut) + [if ok then StaleStep else StaleFails]
  }

  /** Erasing byte by byte is erasing the range. */
  lemma {:induction false} EraseRun(crc: Crc, s: Slot, ss: Session, b: seq<u8>, pos: nat, j: nat)
    requires pos + j <= |b| && s.phase == Erasing(ss, pos) && s.disk.At(ss.target) == Erased(b, 0, pos)
    ensures Exec(crc, s, Repeat(EraseStep, j))
            == s.(disk := s.disk.With(ss.target, Erased(b, 0, pos + j)), phase := Erasing(ss, pos + j))
    decreases j
  {
    hide Erased, EraseByte;
    if j > 0 {
      EraseNext(b, 0, pos);
      assert Repeat(EraseStep, j)[1..] == Repeat(EraseStep, j - 1);
      EraseRun(crc, Step(crc, s, EraseStep), ss, b, pos + 1, j - 1);
    }
  }

  lemma EraseNext(b: seq<u8>, off: nat, pos: nat)
    requires off + pos < |b|
    ensures EraseByte(Erased(b, off, pos), off + pos) == Erased(b, off, pos + 1)
  {
  }

  lemma {:induction false} StaleEraseRun(crc: Crc, s: Slot, ss: Session, b: seq<u8>, pos: nat, j: nat)
    requires pos + j <= |b| && s.phase == ErasingStale(ss, pos) && ss.stale.Some?
    requires s.disk.At(ss.stale.value) == Erased(b, 0, pos)
    ensures Exec(crc, s, Repeat(StaleStep, j))
            == s.(disk := s.disk.With(ss.stale.value, Erased(b, 0, pos + j)), phase := ErasingStale(ss, pos + j))
    decreases j
  {
    hide Erased, EraseByte;
    if j > 0 {
      EraseNext(b, 0, pos);
      assert Repeat(StaleStep, j)[1..] == Repeat(StaleStep, j - 1);
      StaleEraseRun(crc, Step(crc, s, StaleStep), ss, b, pos + 1, j - 1);
    }
  }

  /** Programming byte by byte is programming the range. */
  lemma ProgramNext(b: seq<u8>, off: nat, data: seq<u8>, j: nat)
    requires off + |data| <= |b| && j < |data|
    ensures ProgramByte(Programmed(b, off, data[..j]), off + j, data[j]) == Programmed(b, off, data[..j + 1])
  {
    hide NorAnd, Programmed;
    var p, q := Programmed(b, off, data[..j]), Programmed(b, off, data[..j + 1]);
    forall i | 0 <= i < |b| ensures p[i] == (if off <= i < off + j then NorAnd(b[i], data[i - off]) else b[i])
    {
      ProgrammedByte(b, off, data[..j], i);
    }
    forall i | 0 <= i < |b| ensures q[i] == (if off <= i < off + j + 1 then NorAnd(b[i], data[i - off]) else b[i])
    {
      ProgrammedByte(b, off, data[..j + 1], i);
    }
    assert ProgramByte(p, off + j, data[j]) == q;
  }

  lemma ProgrammedByte(b: seq<u8>, off: nat, data: seq<u8>, i: nat)
    requires off + |data| <= |b| && i < |b|
    ensures Programmed(b, off, data)[i] == if off <= i < off + |data| then NorAnd(b[i], data[i - off]) else b[i]
  {
    hide NorAnd;
  }

  lemma {:induction false} AppendBytes(crc: Crc, s: Slot, ss: Session, chunk: seq<u8>, b: seq<u8>, pos: nat, j: nat)
    requires pos + j <= |chunk| && s.phase == Appending(ss, chunk, pos)
    requires BANK_HEADER_BYTES + ss.written + |chunk| <= |b|
    requires s.disk.At(ss.target) == Programmed(b, BANK_HEADER_BYTES + ss.written, chunk[..pos])
    ensures Exec(crc, s, Repeat(AppendStep, j))
            == s.(disk := s.disk.With(ss.target, Programmed(b, BANK_HEADER_BYTES + ss.written, chunk[..pos + j])),
                  phase := Appending(ss, chunk, pos + j))
    decreases j
  {
    hide Programmed, ProgramByte;
    if j > 0 {
      ProgramNext(b, BANK_HEADER_BYTES + ss.written, chunk, pos);
      assert Repeat(AppendStep, j)[1..] == Repeat(AppendStep, j - 1);
      AppendBytes(crc, Step(crc, s, AppendStep), ss, chunk, b, pos + 1, j - 1);
    }
  }

  lemma {:induction false} HeaderBytes(crc: Crc, s: Slot, ss: Session, b: seq<u8>, pos: nat, j: nat)
    requires pos + j <= BANK_HEADER_BYTES <= |b| && s.phase == WritingHeader(ss, pos)
    requires s.disk.At(ss.target) == Programmed(b, 0, Encode(HeaderOf(ss))[..pos])
    ensures Exec(crc, s, Repeat(HeaderStep, j))
            == s.(disk := s.disk.With(ss.target, Programmed(b, 0, Encode(HeaderOf(ss))[..pos + j])),
                  phase := WritingHeader(ss, pos + j))
    decreases j
  {
    hide Programmed, ProgramByte, Encode, HeaderOf;
    if j > 0 {
      ProgramNext(b, 0, Encode(HeaderOf(ss)), pos);
      assert Repeat(HeaderStep, j)[1..] == Repeat(HeaderStep, j - 1);
      HeaderBytes(crc, Step(crc, s, HeaderStep), ss, b, pos + 1, j - 1);
    }
  }

  lemma BeginIsRun(crc: Crc, s: Slot, cut: nat, ok: bool)
    requires s.phase.Idle? && cut <= |s.disk.At(BeginSession(s).target)|
    requires ok ==> cut == |s.disk.At(BeginSession(s).target)|
    requires Step(crc, s, BeginWrite).phase.Erasing?
    ensures Exec(crc, s, BeginRun(cut, ok)) == AfterBegin(crc, s, cut, ok)
  {
    hide BeginSession, Exec, Repeat, Erased;
    var ss := BeginSession(s);
    var s1 := Step(crc, s, BeginWrite);
    var b := s.disk.At(ss.target);
    ErasedNone(b, 0);
    ExecOne(crc, s, BeginWrite);
    EraseRun(crc, s1, ss, b, 0, cut);
    var last := if ok then EraseStep else EraseFails;
    ExecOne(crc, Exec(crc, s1, Repeat(EraseStep, cut)), last);
    RunSplits(crc, s, EMPTY_REGISTER, [BeginWrite], Repeat(EraseStep, cut));
    RunSplits(crc, s, EMPTY_REGISTER, [BeginWrite] + Repeat(EraseStep, cut), [last]);
  }

  lemma ErasedNone(b: seq<u8>, off: nat)
    requires off <= |b|
    ensures Erased(b, off, 0) == b
  {
  }

  lemma ProgrammedNone(b: seq<u8>, off: nat, data: seq<u8>)
    requires off <= |b|
    ensures Programmed(b, off, data[..0]) == b
  {
  }

  lemma AppendIsRun(crc: Crc, s: Slot, chunk: seq<u8>, cut: nat, ok: bool)
    requires s.phase.Open? && !s.phase.s.failed && cut <= |chunk| && (ok ==> cut == |chunk|)
    requires BANK_HEADER_BYTES + s.phase.s.written + |chunk| <= |s.disk.At(s.phase.s.target)|
    ensures Exec(crc, s, AppendRun(chunk, cut, ok)) == AfterAppend(crc, s, chunk, cut, ok)
  {
    hide Exec, Repeat, Programmed, BeginSession, LoadBank, IsBlank, Encode, HeaderOf, ProgramByte, EraseByte;
    var ss := s.phase.s;
    var s1 := Step(crc, s, Append(chunk));
    var b := s.disk.At(ss.target);
    ProgrammedNone(b, BANK_HEADER_BYTES + ss.written, chunk);
    ExecOne(crc, s, Append(chunk));
    AppendBytes(crc, s1, ss, chunk, b, 0, cut);
    var last := if ok then AppendStep else AppendFails;
    ExecOne(crc, Exec(crc, s1, Repeat(AppendStep, cut)), last);
    RunSplits(crc, s, EMPTY_REGISTER, [Append(chunk)], Repeat(AppendStep, cut));
    RunSplits(crc, s, EMPTY_REGISTER, [Append(chunk)] + Repeat(AppendStep, cut), [last]);
  }

  /** The header part of a commit: it ends in Idle, or before the stale erase. */
  lemma HeaderIsRun(crc: Crc, s: Slot, cut: nat, ok: bool)
    requires s.phase.Open? && !s.phase.s.failed && (ok ==> cut == BANK_HEADER_BYTES)
    requires cut <= BANK_HEADER_BYTES <= |s.disk.At(s.phase.s.target)|
    ensures Exec(crc, s, HeaderRunOf(cut, ok))
            == if ok && s.phase.s.stale.Some? then AfterHeader(s, cut, ok).(phase := ErasingStale(s.phase.s, 0))
               else AfterHeader(s, cut, ok)
  {
    hide Exec, Repeat, Programmed, Encode, HeaderOf, BeginSession, LoadBank, IsBlank, ProgramByte, EraseByte;
    var ss := s.phase.s;
    var s1 := Step(crc, s, Commit);
    var b := s.disk.At(ss.target);
    ProgrammedNone(b, 0, Encode(HeaderOf(ss)));
    ExecOne(crc, s, Commit);
    HeaderBytes(crc, s1, ss, b, 0, cut);
    var last := if ok then HeaderStep else HeaderFails;
    ExecOne(crc, Exec(crc, s1, Repeat(HeaderStep, cut)), last);
    RunSplits(crc, s, EMPTY_REGISTER, [Commit], Repeat(HeaderStep, cut));
    RunSplits(crc, s, EMPTY_REGISTER, [Commit] + Repeat(HeaderStep, cut), [last]);
  }

  lemma StaleIsRun(crc: Crc, s: Slot, ss: Session, cut: nat, ok: bool)
    requires s.phase == ErasingStale(ss, 0) && ss.stale.Some?
    requires cut <= |s.disk.At(ss.stale.value)| && (ok ==> cut == |s.disk.At(ss.stale.value)|)
    ensures Exec(crc, s, StaleRun(cut, ok)) == AfterStale(s.(phase := Idle), ss.stale, cut, ok)
  {
    hide Exec, Repeat, Erased, BeginSession, LoadBank, IsBlank, Encode, HeaderOf, ProgramByte, EraseByte;
    var b := s.disk.At(ss.stale.value);
    ErasedNone(b, 0);
    StaleEraseRun(crc, s, ss, b, 0, cut);
    var last := if ok then StaleStep else StaleFails;
    ExecOne(crc, Exec(crc, s, Repeat(StaleStep, cut)), last);
    RunSplits(crc, s, EMPTY_REGISTER, Repeat(StaleStep, cut), [last]);
  }

  /** A whole commit is a run: header bytes, the served bank, then the stale bank. */
  lemma CommitIsRun(crc: Crc, s: Slot, cut: nat, ok: bool, staleCut: nat, staleOk: bool)
    requires s.phase.Open? && !s.phase.s.failed && cut <= BANK_HEADER_BYTES && (ok ==> cut == BANK_HEADER_BYTES)
    requires BANK_HEADER_BYTES <= |s.disk.bank0| == |s.disk.bank1| && staleCut <= |s.disk.bank0|
    requires staleOk ==> staleCut == |s.disk.bank0|
    ensures Exec(crc, s, HeaderRunOf(cut, ok) +
                         if ok && s.phase.s.stale.Some? then StaleRun(staleCut, staleOk) else [])
            == AfterCommit(s, cut, ok, staleCut, staleOk)
  {
    hide Exec, HeaderRunOf, StaleRun, Erased, Programmed, Encode;
    HeaderIsRun(crc, s, cut, ok);
    if ok && s.phase.s.stale.Some? {
      var s1 := Exec(crc, s, HeaderRunOf(cut, ok));
      StaleIsRun(crc, s1, s.phase.s, staleCut, staleOk);
      RunSplits(crc, s, EMPTY_REGISTER, HeaderRunOf(cut, ok), StaleRun(staleCut, staleOk));
    } else {
      assert HeaderRunOf(cut, ok) + [] == HeaderRunOf(cut, ok);
    }
  }
}
