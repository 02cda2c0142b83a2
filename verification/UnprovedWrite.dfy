/**
 When a write spares the readable payload, and a run in which it does not: a torn header
 left by a power cut is the newest one, and a write that no load preceded keeps it.
 */
module UnprovedWrite {
  import opened Wrappers
  import opened SliceLayout
  import opened BankFormat
  import opened SlotMachine
  import opened CrashConsistency

  /**
   Erasing the bank `begin_write` picks spares the bank a load reads exactly when: with a bank
   served, the newest header is that bank's or its payload does not pass; with none served, the
   newest header's bank passes, or no bank does.
   */
  lemma BeginSparesIff(crc: Crc, n: nat, k: nat, s: Slot)
    requires Sized(n, s.disk) && Sequenced(k, s.disk)
    requires s.served.bank.Some? ==> Valid(crc, s.disk.At(s.served.bank.value))
    ensures LoadBank(crc, s.disk.With(BeginSession(s).target, Blank(n))) == LoadBank(crc, s.disk)
            <==>
            if s.served.bank.Some?
            then Newest(s.disk) == s.served.bank
                 || (Newest(s.disk).Some? && !Valid(crc, s.disk.At(Newest(s.disk).value)))
            else || Newest(s.disk).None? || Valid(crc, s.disk.At(Newest(s.disk).value))
                 || (!Valid(crc, s.disk.bank0) && !Valid(crc, s.disk.bank1))
  {
    hide Decode, Encode, LoadBank, Candidates, Newest;
    var t := BeginSession(s).target;
    var d := s.disk.With(t, Blank(n));
    ErasedFirstByte(Blank(n));
    LoadWithout(crc, d, t);
    LoadFinds(crc, s.disk);
    NewestIsMaximal(k, s.disk);
    if Newest(s.disk).Some? {
      if Valid(crc, s.disk.At(Newest(s.disk).value)) {
        LoadNewest(crc, s.disk, Newest(s.disk).value);
      } else {
        LoadWithout(crc, s.disk, Newest(s.disk).value);
      }
    }
  }

  /**
   A freshly committed payload displaces the served one, before the stale bank is erased, exactly
   when its sequence number has not wrapped.
   */
  lemma CommitWinsIff(crc: Crc, n: nat, k: nat, d: Disk, v: Bank, data: seq<u8>)
    requires Sized(n, d) && Sequenced(k, d) && Valid(crc, d.At(v)) && Newest(d) == Some(v)
    requires BANK_HEADER_BYTES + |data| <= n
    ensures var h := BankHeader(NextSeq(d), |data|, crc(0, data));
            LoadBank(crc, d.With(1 - v, Staged(n, h, data, BANK_HEADER_BYTES))) == Some(1 - v)
            <==> SeqOf(d.At(v)) < 0xFFFF_FFFF
  {
    hide Decode, Encode, LoadBank, Candidates, Newest, Staged;
    var h := BankHeader(NextSeq(d), |data|, crc(0, data));
    StagedBank(crc, n, h, data, BANK_HEADER_BYTES);
    var d' := d.With(1 - v, Staged(n, h, data, BANK_HEADER_BYTES));
    if SeqOf(d.At(v)) < 0xFFFF_FFFF {
      LoadNewest(crc, d', 1 - v);
    } else {
      LoadNewest(crc, d', v);
    }
  }

  // ---- A run that loses the only readable payload ----

  function Repeat(a: Action, j: nat): (r: seq<Action>)
    ensures |r| == j
  {
    if j == 0 then [] else [a] + Repeat(a, j - 1)
  }

  /** `j` header bytes in a row. */
  lemma {:induction false} HeaderRun(crc: Crc, n: nat, s: Slot, ss: Session, data: seq<u8>, pos: nat, j: nat)
    requires s.phase == WritingHeader(ss, pos) && pos + j <= BANK_HEADER_BYTES
    requires BANK_HEADER_BYTES + |data| <= n
    requires s.disk.At(ss.target) == Staged(n, HeaderOf(ss), data, pos)
    ensures Exec(crc, s, Repeat(HeaderStep, j))
            == s.(disk := s.disk.With(ss.target, Staged(n, HeaderOf(ss), data, pos + j)),
                  phase := WritingHeader(ss, pos + j))
    ensures Disciplined(crc, s, Repeat(HeaderStep, j))
    decreases j
  {
    hide Encode, Staged, HeaderOf;
    if j > 0 {
      StageHeaderByte(n, HeaderOf(ss), data, pos);
      var s' := Step(crc, s, HeaderStep);
      assert Repeat(HeaderStep, j)[1..] == Repeat(HeaderStep, j - 1);
      HeaderRun(crc, n, s', ss, data, pos + 1, j - 1);
    }
  }

  /** First boot: the empty payload is committed to bank 0. */
  function FirstBoot(): seq<Action> {
    [Load, BeginWrite, Commit] + Repeat(HeaderStep, 16) + [HeaderStep]
  }

  /** The next session is cut when its header lacks only the checksum; the slot is not loaded again. */
  function TornRewrite(): seq<Action> {
    [BeginWrite, Commit] + Repeat(HeaderStep, 12) + [PowerCut]
  }

  function Written(n: nat): Slot
    requires n >= BANK_HEADER_BYTES
  {
    Slot(Disk(Staged(n, BankHeader(1, 0, 0), [], 16), Blank(n)), Served(1, Some(0)), None, Idle, true)
  }

  function Torn(n: nat): Slot
    requires n >= BANK_HEADER_BYTES
  {
    Slot(Disk(Staged(n, BankHeader(1, 0, 0), [], 16), Staged(n, BankHeader(2, 0, 0), [], 12)),
         Served(0, None), None, Idle, false)
  }

  lemma ExecOne(crc: Crc, s: Slot, a: Action)
    ensures Exec(crc, s, [a]) == Step(crc, s, a)
    ensures Disciplined(crc, s, [a]) <==> (a.BeginWrite? ==> s.loaded)
  {
    hide Step;
  }

  lemma ExecTwo(crc: Crc, s: Slot, a: Action, b: Action)
    ensures Exec(crc, s, [a, b]) == Step(crc, Step(crc, s, a), b)
    ensures (a.BeginWrite? ==> s.loaded) && !b.BeginWrite? ==> Disciplined(crc, s, [a, b])
  {
    hide Step;
    assert [a, b] == [a] + [b];
    RunSplits(crc, s, EMPTY_REGISTER, [a], [b]);
  }

  /** `begin_write` on a blank target and `commit` of nothing, up to the `j`th header byte. */
  lemma EmptySession(crc: Crc, n: nat, s: Slot, j: nat)
    requires s.phase.Idle? && s.loaded && s.erased.None? && j <= BANK_HEADER_BYTES <= n
    requires s.disk.At(BeginSession(s).target) == Blank(n)
    ensures var ss, run := BeginSession(s), [BeginWrite, Commit] + Repeat(HeaderStep, j);
            && Exec(crc, s, run) == s.(disk := s.disk.With(ss.target, Staged(n, HeaderOf(ss), [], j)),
                                       phase := WritingHeader(ss, j))
            && Disciplined(crc, s, run)
  {
    hide Staged, BeginSession, Exec, Disciplined, Repeat, HeaderOf;
    var ss := BeginSession(s);
    ExecTwo(crc, s, BeginWrite, Commit);
    SessionStarts(s);
    BlankIsStaged(n, HeaderOf(ss), Blank(n));
    var s2 := s.(phase := WritingHeader(ss, 0));
    HeaderRun(crc, n, s2, ss, [], 0, j);
    RunSplits(crc, s, EMPTY_REGISTER, [BeginWrite, Commit], Repeat(HeaderStep, j));
  }

  lemma SessionStarts(s: Slot)
    ensures var ss := BeginSession(s); !ss.failed && ss.written == 0 && ss.crc == 0
  {
  }

  /** An empty slot after a load: the first session goes to bank 0 with sequence number 1. */
  lemma FirstSession(crc: Crc, n: nat)
    requires BANK_HEADER_BYTES <= n <= MAX_BANK_BYTES
    ensures var s := Step(crc, BlankSlot(n), Load);
            s == BlankSlot(n).(loaded := true) && BeginSession(s) == Session(0, None, 1, 0, 0, false)
  {
    hide Decode;
    ErasedFirstByte(Blank(n));
    LoadWithout(crc, BlankSlot(n).disk, 0);
  }

  /** The slot after the last header byte, before the step that ends the session. */
  function HeaderDone(n: nat): Slot
    requires n >= BANK_HEADER_BYTES
  {
    Slot(Disk(Staged(n, BankHeader(1, 0, 0), [], 16), Blank(n)), Served(0, None), None,
         WritingHeader(Session(0, None, 1, 0, 0, false), 16), true)
  }

  lemma FirstHeader(crc: Crc, n: nat)
    requires BANK_HEADER_BYTES <= n <= MAX_BANK_BYTES
    ensures var s1, session := Step(crc, BlankSlot(n), Load), [BeginWrite, Commit] + Repeat(HeaderStep, 16);
            Exec(crc, s1, session) == HeaderDone(n) && Disciplined(crc, s1, session)
  {
    hide Staged, BeginSession, Exec, Disciplined, Repeat, LoadBank, BlankSlot, Step;
    FirstSession(crc, n);
    BlankSlotIsBlank(n);
    EmptySession(crc, n, Step(crc, BlankSlot(n), Load), 16);
  }

  lemma HeaderDoneEnds(crc: Crc, n: nat)
    requires n >= BANK_HEADER_BYTES
    ensures Step(crc, HeaderDone(n), HeaderStep) == Written(n)
  {
    hide Staged;
  }

  lemma FirstBootWrites(crc: Crc, n: nat)
    requires BANK_HEADER_BYTES <= n <= MAX_BANK_BYTES
    ensures Exec(crc, BlankSlot(n), FirstBoot()) == Written(n)
    ensures Disciplined(crc, BlankSlot(n), FirstBoot())
  {
    hide Step, Exec, Disciplined, Repeat, BlankSlot, HeaderDone, Written;
    var s := BlankSlot(n);
    var s1 := Step(crc, s, Load);
    var session := [BeginWrite, Commit] + Repeat(HeaderStep, 16);
    FirstHeader(crc, n);
    HeaderDoneEnds(crc, n);
    ExecOne(crc, s, Load);
    ExecOne(crc, HeaderDone(n), HeaderStep);
    RunSplits(crc, s1, EMPTY_REGISTER, session, [HeaderStep]);
    RunSplits(crc, s, EMPTY_REGISTER, [Load], session + [HeaderStep]);
    assert FirstBoot() == [Load] + (session + [HeaderStep]);
  }

  lemma BlankSlotIsBlank(n: nat)
    ensures BlankSlot(n) == Slot(Disk(Blank(n), Blank(n)), Served(0, None), None, Idle, false)
  {
  }

  lemma TornRewriteTears(crc: Crc, n: nat)
    requires Chains(crc) && BANK_HEADER_BYTES <= n <= MAX_BANK_BYTES
    ensures Exec(crc, Written(n), TornRewrite()) == Torn(n)
    ensures Disciplined(crc, Written(n), TornRewrite())
  {
    hide Staged, BeginSession, Exec, Disciplined, Repeat;
    var s := Written(n);
    SecondSession(crc, n);
    var session := [BeginWrite, Commit] + Repeat(HeaderStep, 12);
    EmptySession(crc, n, s, 12);
    ExecOne(crc, Exec(crc, s, session), PowerCut);
    RunSplits(crc, s, EMPTY_REGISTER, session, [PowerCut]);
  }

  lemma SecondSession(crc: Crc, n: nat)
    requires Chains(crc) && BANK_HEADER_BYTES <= n <= MAX_BANK_BYTES
    ensures BeginSession(Written(n)) == Session(1, Some(0), 2, 0, 0, false)
  {
    hide Decode, Staged;
    StagedBank(crc, n, BankHeader(1, 0, 0), [], 16);
    ErasedFirstByte(Blank(n));
    assert Newest(Written(n).disk) == Some(0);
  }

  /** The next session's header is written whole, and its write is reported failed. */
  function FailedRewrite(): seq<Action> {
    [BeginWrite, Commit] + Repeat(HeaderStep, 16) + [HeaderFails]
  }

  function Doubled(n: nat): Slot
    requires n >= BANK_HEADER_BYTES
  {
    Slot(Disk(Staged(n, BankHeader(1, 0, 0), [], 16), Staged(n, BankHeader(2, 0, 0), [], 16)),
         Served(1, Some(0)), None, Idle, true)
  }

  lemma FailedRewriteDoubles(crc: Crc, n: nat)
    requires Chains(crc) && BANK_HEADER_BYTES <= n <= MAX_BANK_BYTES
    ensures Exec(crc, Written(n), FailedRewrite()) == Doubled(n)
    ensures Disciplined(crc, Written(n), FailedRewrite())
  {
    hide Staged, BeginSession, Exec, Disciplined, Repeat;
    var s := Written(n);
    SecondSession(crc, n);
    var session := [BeginWrite, Commit] + Repeat(HeaderStep, 16);
    EmptySession(crc, n, s, 16);
    ExecOne(crc, Exec(crc, s, session), HeaderFails);
    RunSplits(crc, s, EMPTY_REGISTER, session, [HeaderFails]);
  }

  /** Both banks pass, the served one with the older header. */
  lemma DoubledBanks(crc: Crc, n: nat)
    requires Chains(crc) && BANK_HEADER_BYTES <= n <= MAX_BANK_BYTES
    ensures var s := Doubled(n);
            && Valid(crc, s.disk.bank0) && Valid(crc, s.disk.bank1)
            && SeqOf(s.disk.bank0) == 1 && SeqOf(s.disk.bank1) == 2
  {
    hide Decode, Staged;
    StagedBank(crc, n, BankHeader(1, 0, 0), [], 16);
    StagedBank(crc, n, BankHeader(2, 0, 0), [], 16);
  }

  /**
   A disciplined run after which `begin_write` erases the bank a load would read, although another
   one is served: a header write that was reported failed was complete.
   */
  lemma FailedWriteIsErased(crc: Crc, n: nat)
    requires Chains(crc) && BANK_HEADER_BYTES <= n <= MAX_BANK_BYTES
    ensures var s := Exec(crc, BlankSlot(n), FirstBoot() + FailedRewrite());
            && Disciplined(crc, BlankSlot(n), FirstBoot() + FailedRewrite())
            && s == Doubled(n) && s.served.bank == Some(0) && LoadBank(crc, s.disk) == Some(1)
            && LoadBank(crc, s.disk.With(BeginSession(s).target, Blank(n))) == Some(0)
  {
    hide Doubled, Written, Exec, Disciplined, FirstBoot, FailedRewrite, BlankSlot, LoadBank;
    FirstBootWrites(crc, n);
    FailedRewriteDoubles(crc, n);
    RunSplits(crc, BlankSlot(n), EMPTY_REGISTER, FirstBoot(), FailedRewrite());
    DoubledLoses(crc, n);
  }

  lemma DoubledLoses(crc: Crc, n: nat)
    requires Chains(crc) && BANK_HEADER_BYTES <= n <= MAX_BANK_BYTES
    ensures var s := Doubled(n);
            && s.served.bank == Some(0) && LoadBank(crc, s.disk) == Some(1)
            && LoadBank(crc, s.disk.With(BeginSession(s).target, Blank(n))) == Some(0)
  {
    hide Decode, Staged, LoadBank, Newest;
    var s := Doubled(n);
    DoubledBanks(crc, n);
    LoadNewest(crc, s.disk, 1);
    assert BeginSession(s).target == 1;
    ErasedFirstByte(Blank(n));
    LoadWithout(crc, s.disk.With(1, Blank(n)), 1);
  }

  /** Whatever the checksum: one byte into the write that no load preceded, the committed payload is gone. */
  lemma UnprovedWriteLoses(crc: Crc, n: nat)
    requires Chains(crc) && BANK_HEADER_BYTES <= n <= MAX_BANK_BYTES
    ensures var s := Exec(crc, BlankSlot(n), FirstBoot() + TornRewrite());
            && Disciplined(crc, BlankSlot(n), FirstBoot() + TornRewrite())
            && LoadResult(crc, s.disk) == Some([])
            && LoadResult(crc, Exec(crc, s, [BeginWrite, EraseStep]).disk) == None
  {
    hide Torn, Written, Exec, Disciplined, FirstBoot, TornRewrite, Step, BlankSlot, LoadResult;
    FirstBootWrites(crc, n);
    TornRewriteTears(crc, n);
    RunSplits(crc, BlankSlot(n), EMPTY_REGISTER, FirstBoot(), TornRewrite());
    ExecTwo(crc, Torn(n), BeginWrite, EraseStep);
    TornLoses(crc, n);
  }

  lemma TornLoses(crc: Crc, n: nat)
    requires Chains(crc) && BANK_HEADER_BYTES <= n <= MAX_BANK_BYTES
    ensures LoadResult(crc, Torn(n).disk) == Some([])
    ensures LoadResult(crc, Step(crc, Step(crc, Torn(n), BeginWrite), EraseStep).disk) == None
  {
    hide Decode, Encode, Staged, Newest, LoadBank, LoadResult, NextSeq;
    TornBanks(crc, n);
    var s := Torn(n);
    LoadWithout(crc, s.disk, 1);
    var s1 := Step(crc, s, BeginWrite);
    assert s1.phase.Erasing? && s1.phase.s.target == 0;
    var s2 := Step(crc, s1, EraseStep);
    ErasedFirstByte(s2.disk.bank0);
    LoadWithout(crc, s2.disk, 0);
  }

  lemma TornBanks(crc: Crc, n: nat)
    requires Chains(crc) && BANK_HEADER_BYTES <= n <= MAX_BANK_BYTES
    ensures Newest(Torn(n).disk) == Some(1)
    ensures Valid(crc, Torn(n).disk.bank0) && Payload(Torn(n).disk.bank0) == []
    ensures !Valid(crc, Torn(n).disk.bank1) && !IsBlank(Torn(n).disk.bank0)
  {
    hide Decode, Encode, TornBank;
    var h1, h2, body := BankHeader(1, 0, 0), BankHeader(2, 0, 0), [] + Blank(n - BANK_HEADER_BYTES);
    StagedBank(crc, n, h1, [], 16);
    StagedBank(crc, n, h2, [], 12);
    TornHeader(crc, h2, body, 12);
    MissingChecksum(h2, body);
    if IsBlank(Torn(n).disk.bank0) {
      ErasedFirstByte(Torn(n).disk.bank0);
    }
  }

  /** A header cut before its checksum is a candidate, but not the whole header. */
  lemma MissingChecksum(h: BankHeader, body: seq<u8>)
    requires h.crc == 0 && h.len == 0 && BankSized(TornBank(h, body, 12))
    ensures Candidate(TornBank(h, body, 12)) && TornBank(h, body, 12) != Encode(h) + body
  {
    hide Decode, LeWord;
    TornTail(h, body, 12);
    assert TornBank(h, body, 12)[12] == ERASED_BYTE;
    ZeroChecksum(h);
    assert (Encode(h) + body)[12] == Encode(h)[12];
  }

  lemma ZeroChecksum(h: BankHeader)
    requires h.crc == 0
    ensures Encode(h)[12] == 0
  {
    assert Encode(h)[12] == LeBytes(0)[0];
  }
}
