/**
 Sequences of store calls on one slice, whatever fails in them and over any number of boots, are
 runs of the byte-wise machine; so what holds of every run holds of the store (slice_store_core.rs).
 */
module StoreRuns {
  import opened Wrappers
  import opened SliceLayout
  import opened BankFormat
  import opened SlotMachine
  import opened CrashConsistency
  import opened UnprovedWrite
  import opened SliceCalls

  /**
   A call with its outcome. `cut` is how many bytes a flash operation reached and `ok` whether it
   reported success; power lost inside a call is one that did not, and then a reboot.
   */
  datatype Call =
    | Loads
    | LoadsOlder(bank: Bank)
    | Begins(cut: nat, ok: bool)
    | Appends(chunk: seq<u8>, cut: nat, ok: bool)
    | Commits(cut: nat, ok: bool, staleCut: nat, staleOk: bool)
    | Aborts
    | Declines
    | Reboots

  /** The call can be made now, and an operation that reported success was complete. */
  predicate CanHappen(crc: Crc, s: Slot, c: Call) {
    match c
    case Loads => s.phase.Idle? || s.phase.Open?
    case LoadsOlder(b) => (s.phase.Idle? || s.phase.Open?) && Valid(crc, s.disk.At(b))
    case Begins(cut, ok) =>
      var size := |s.disk.At(BeginSession(s).target)|;
      && s.phase.Idle? && cut <= size
      && (if Step(crc, s, BeginWrite).phase.Erasing? then ok ==> cut == size else ok)
    case Appends(chunk, cut, ok) =>
      && s.phase.Open? && cut <= |chunk|
      && (ok ==> cut == |chunk| && !s.phase.s.failed
                 && BANK_HEADER_BYTES + s.phase.s.written + |chunk| <= |s.disk.At(s.phase.s.target)|)
    case Commits(cut, ok, staleCut, staleOk) =>
      && s.phase.Open? && cut <= BANK_HEADER_BYTES && (ok ==> cut == BANK_HEADER_BYTES && !s.phase.s.failed)
      && BANK_HEADER_BYTES <= |s.disk.bank0| == |s.disk.bank1| && staleCut <= |s.disk.bank0|
      && (staleOk ==> staleCut == |s.disk.bank0|)
    case Aborts => s.phase.Open?
    case Declines => true
    case Reboots => true
  }

  function AfterCall(crc: Crc, s: Slot, c: Call): Slot
    requires CanHappen(crc, s, c)
  {
    match c
    case Loads => Step(crc, s, Load)
    case LoadsOlder(b) => Step(crc, s, LoadFrom(b))
    case Begins(cut, ok) => AfterBegin(crc, s, cut, ok)
    case Appends(chunk, cut, ok) => AfterAppend(crc, s, chunk, cut, ok)
    case Commits(cut, ok, staleCut, staleOk) => AfterCommit(s, cut, ok, staleCut, staleOk)
    case Aborts => s.(phase := Idle)
    case Declines => s
    case Reboots => Step(crc, s, PowerCut)
  }

  /** What the store may remember: whether it has been loaded since boot is for the caller to know. */
  predicate Happens(crc: Crc, before: Slot, after: Slot, c: Call) {
    CanHappen(crc, before, c) && after == AfterCall(crc, before, c).(loaded := false)
  }

  lemma LoadHappens(crc: Crc, s: Slot, hit: Option<Bank>)
    requires s.phase.Idle? && !s.loaded && LoadBank(crc, s.disk) == hit
    ensures Happens(crc, s, if hit.Some? then s.(served := Served(s.served.generation, hit)) else s, Loads)
  {
    hide LoadBank;
  }

  lemma OlderLoadHappens(crc: Crc, s: Slot, b: Bank)
    requires s.phase.Idle? && !s.loaded && Valid(crc, s.disk.At(b))
    ensures Happens(crc, s, s.(served := Served(s.served.generation, Some(b))), LoadsOlder(b))
  {
    hide Valid;
  }

  /** A session on a target that is remembered or found blank. */
  lemma BeginHappens(crc: Crc, s: Slot)
    requires s.phase.Idle? && !s.loaded
    requires s.erased == Some(BeginSession(s).target) || IsBlank(s.disk.At(BeginSession(s).target))
    ensures Happens(crc, s, s.(phase := Open(BeginSession(s)), erased := None), Begins(0, true))
  {
    hide BeginSession, IsBlank;
  }

  /** A session that erases its target first, or fails in that. */
  lemma EraseHappens(crc: Crc, s: Slot, cut: nat, ok: bool)
    requires s.phase.Idle? && !s.loaded
    requires s.erased != Some(BeginSession(s).target) && !IsBlank(s.disk.At(BeginSession(s).target))
    requires cut <= |s.disk.At(BeginSession(s).target)| && (ok ==> cut == |s.disk.At(BeginSession(s).target)|)
    ensures var ss := BeginSession(s);
            var d := s.disk.With(ss.target, Erased(s.disk.At(ss.target), 0, cut));
            Happens(crc, s, if ok then s.(disk := d, phase := Open(ss), erased := None) else s.(disk := d), Begins(cut, ok))
  {
    hide BeginSession, IsBlank, Erased;
  }

  /** Whether the slot was loaded decides nothing in a call. */
  lemma LoadedDecidesNothing(crc: Crc, s: Slot, loaded: bool, c: Call)
    ensures CanHappen(crc, s.(loaded := loaded), c) <==> CanHappen(crc, s, c)
    ensures CanHappen(crc, s, c) ==>
              AfterCall(crc, s.(loaded := loaded), c).(loaded := false) == AfterCall(crc, s, c).(loaded := false)
  {
    hide LoadBank, Newest, NextSeq, Valid, IsBlank, Erased, Programmed, Encode, HeaderOf;
  }

  /** What a caller knows may be stored: the reference, call by call. */
  function NoteCall(crc: Crc, r: Register, s: Slot, c: Call): Register
    requires CanHappen(crc, s, c)
  {
    match c
    case Loads => r.(possible := {LoadResult(crc, s.disk)})
    case LoadsOlder(b) => r.(possible := r.possible + {Some(Payload(s.disk.At(b)))})
    case Begins(_, _) => r.(building := [])
    case Appends(chunk, _, ok) => if ok then r.(building := r.building + chunk) else r
    case Commits(_, ok, _, _) =>
      if s.phase.s.failed then r
      else r.(possible := if ok then {Some(r.building)} else r.possible + {Some(r.building)})
    case _ => r
  }

  // ---- One call ----

  function CallRun(crc: Crc, s: Slot, c: Call): seq<Action>
    requires CanHappen(crc, s, c)
  {
    match c
    case Loads => [Load]
    case LoadsOlder(b) => [LoadFrom(b)]
    case Begins(cut, ok) => if Step(crc, s, BeginWrite).phase.Erasing? then BeginRun(cut, ok) else [BeginWrite]
    case Appends(chunk, cut, ok) =>
      if s.phase.s.failed || BANK_HEADER_BYTES + s.phase.s.written + |chunk| > |s.disk.At(s.phase.s.target)|
      then [Append(chunk)]
      else AppendRun(chunk, cut, ok)
    case Commits(cut, ok, staleCut, staleOk) =>
      if s.phase.s.failed then [Commit]
      else HeaderRunOf(cut, ok) + (if ok && s.phase.s.stale.Some? then StaleRun(staleCut, staleOk) else [])
    case Aborts => [Abort]
    case Declines => []
    case Reboots => [PowerCut]
  }

  /** A call leaves the slot as its run does. */
  lemma CallIsRun(crc: Crc, s: Slot, c: Call)
    requires CanHappen(crc, s, c)
    ensures Exec(crc, s, CallRun(crc, s, c)) == AfterCall(crc, s, c)
  {
    hide Exec, Repeat, Erased, Programmed, Encode, LoadBank, BeginSession, BeginRun, AppendRun, HeaderRunOf, StaleRun, Valid;
    match c
    case Loads => ExecOne(crc, s, Load);
    case LoadsOlder(b) => ExecOne(crc, s, LoadFrom(b));
    case Begins(cut, ok) =>
      if Step(crc, s, BeginWrite).phase.Erasing? {
        BeginIsRun(crc, s, cut, ok);
      } else {
        ExecOne(crc, s, BeginWrite);
      }
    case Appends(chunk, cut, ok) =>
      if s.phase.s.failed || BANK_HEADER_BYTES + s.phase.s.written + |chunk| > |s.disk.At(s.phase.s.target)| {
        ExecOne(crc, s, Append(chunk));
      } else {
        AppendIsRun(crc, s, chunk, cut, ok);
      }
    case Commits(cut, ok, staleCut, staleOk) =>
      if s.phase.s.failed {
        ExecOne(crc, s, Commit);
      } else {
        CommitIsRun(crc, s, cut, ok, staleCut, staleOk);
      }
    case Aborts => ExecOne(crc, s, Abort);
    case Declines => ExecNone(crc, s);
    case Reboots => ExecOne(crc, s, PowerCut);
  }

  lemma ExecNone(crc: Crc, s: Slot)
    ensures Exec(crc, s, []) == s
  {
  }

  // ---- What the caller knows, along a run ----

  /** Steps inside a flash operation tell the caller nothing. */
  predicate Silent(a: Action) {
    a.EraseStep? || a.EraseFails? || a.AppendFails? || a.HeaderFails? || a.StaleStep? || a.StaleFails?
  }

  lemma {:induction false} SilentRun(crc: Crc, r: Register, s: Slot, a: Action, j: nat)
    requires Silent(a)
    ensures RegisterExec(crc, r, s, Repeat(a, j)) == r
    decreases j
  {
    hide Step;
    if j > 0 {
      assert Repeat(a, j)[1..] == Repeat(a, j - 1);
      SilentRun(crc, r, Step(crc, s, a), a, j - 1);
    }
  }

  lemma RegisterOne(crc: Crc, r: Register, s: Slot, a: Action)
    ensures RegisterExec(crc, r, s, [a]) == RegisterStep(crc, r, s, a)
  {
    hide RegisterStep, Step;
  }

  /** Bytes of an append or a header, short of the step that ends it. */
  lemma {:induction false} AppendingRun(crc: Crc, r: Register, s: Slot, j: nat)
    requires s.phase.Appending? && s.phase.pos + j <= |s.phase.chunk|
    ensures RegisterExec(crc, r, s, Repeat(AppendStep, j)) == r
    decreases j
  {
    hide ProgramByte;
    if j > 0 {
      assert Repeat(AppendStep, j)[1..] == Repeat(AppendStep, j - 1);
      AppendingRun(crc, r, Step(crc, s, AppendStep), j - 1);
    }
  }

  lemma {:induction false} WritingRun(crc: Crc, r: Register, s: Slot, j: nat)
    requires s.phase.WritingHeader? && s.phase.pos + j <= BANK_HEADER_BYTES
    ensures RegisterExec(crc, r, s, Repeat(HeaderStep, j)) == r
    decreases j
  {
    hide ProgramByte, Encode, HeaderOf;
    if j > 0 {
      assert Repeat(HeaderStep, j)[1..] == Repeat(HeaderStep, j - 1);
      WritingRun(crc, r, Step(crc, s, HeaderStep), j - 1);
    }
  }

  lemma BeginNotes(crc: Crc, r: Register, s: Slot, cut: nat, ok: bool)
    requires s.phase.Idle?
    ensures RegisterExec(crc, r, s, BeginRun(cut, ok)) == r.(building := [])
  {
    hide Exec, RegisterExec, Repeat, Step;
    var last := if ok then EraseStep else EraseFails;
    RegisterOne(crc, r, s, BeginWrite);
    var r1, s1 := RegisterStep(crc, r, s, BeginWrite), Exec(crc, s, [BeginWrite]);
    SilentRun(crc, r1, s1, EraseStep, cut);
    RegisterOne(crc, r1, Exec(crc, s1, Repeat(EraseStep, cut)), last);
    RunSplits(crc, s, r, [BeginWrite], Repeat(EraseStep, cut));
    RunSplits(crc, s, r, [BeginWrite] + Repeat(EraseStep, cut), [last]);
  }

  lemma AppendNotes(crc: Crc, r: Register, s: Slot, chunk: seq<u8>, cut: nat, ok: bool)
    requires s.phase.Open? && !s.phase.s.failed && cut <= |chunk| && (ok ==> cut == |chunk|)
    requires BANK_HEADER_BYTES + s.phase.s.written + |chunk| <= |s.disk.At(s.phase.s.target)|
    ensures RegisterExec(crc, r, s, AppendRun(chunk, cut, ok)) == if ok then r.(building := r.building + chunk) else r
  {
    hide Exec, RegisterExec, Repeat, Programmed;
    var last := if ok then AppendStep else AppendFails;
    RegisterOne(crc, r, s, Append(chunk));
    ExecOne(crc, s, Append(chunk));
    var s1 := Exec(crc, s, [Append(chunk)]);
    var b := s.disk.At(s.phase.s.target);
    AppendingRun(crc, r, s1, cut);
    ProgrammedNone(b, BANK_HEADER_BYTES + s.phase.s.written, chunk);
    AppendBytes(crc, s1, s.phase.s, chunk, b, 0, cut);
    RegisterOne(crc, r, Exec(crc, s1, Repeat(AppendStep, cut)), last);
    RunSplits(crc, s, r, [Append(chunk)], Repeat(AppendStep, cut));
    RunSplits(crc, s, r, [Append(chunk)] + Repeat(AppendStep, cut), [last]);
  }

  lemma HeaderNotes(crc: Crc, r: Register, s: Slot, cut: nat, ok: bool)
    requires s.phase.Open? && !s.phase.s.failed && (ok ==> cut == BANK_HEADER_BYTES)
    requires cut <= BANK_HEADER_BYTES <= |s.disk.At(s.phase.s.target)|
    ensures RegisterExec(crc, r, s, HeaderRunOf(cut, ok))
         == r.(possible := if ok then {Some(r.building)} else r.possible + {Some(r.building)})
  {
    hide Exec, RegisterExec, Repeat, Programmed, Encode, HeaderOf;
    var last := if ok then HeaderStep else HeaderFails;
    RegisterOne(crc, r, s, Commit);
    ExecOne(crc, s, Commit);
    var r1, s1 := RegisterStep(crc, r, s, Commit), Exec(crc, s, [Commit]);
    var ss := s.phase.s;
    var b := s.disk.At(ss.target);
    WritingRun(crc, r1, s1, cut);
    ProgrammedNone(b, 0, Encode(HeaderOf(ss)));
    HeaderBytes(crc, s1, ss, b, 0, cut);
    RegisterOne(crc, r1, Exec(crc, s1, Repeat(HeaderStep, cut)), last);
    RunSplits(crc, s, r, [Commit], Repeat(HeaderStep, cut));
    RunSplits(crc, s, r, [Commit] + Repeat(HeaderStep, cut), [last]);
  }

  lemma StaleNotes(crc: Crc, r: Register, s: Slot, cut: nat, ok: bool)
    ensures RegisterExec(crc, r, s, StaleRun(cut, ok)) == r
  {
    hide Exec, RegisterExec, Repeat, Step;
    var last := if ok then StaleStep else StaleFails;
    SilentRun(crc, r, s, StaleStep, cut);
    RegisterOne(crc, r, Exec(crc, s, Repeat(StaleStep, cut)), last);
    RunSplits(crc, s, r, Repeat(StaleStep, cut), [last]);
  }

  /** The caller's knowledge after a call is that of its run. */
  lemma CallNotes(crc: Crc, r: Register, s: Slot, c: Call)
    requires CanHappen(crc, s, c)
    ensures RegisterExec(crc, r, s, CallRun(crc, s, c)) == NoteCall(crc, r, s, c)
  {
    hide Exec, RegisterExec, Repeat, LoadBank, LoadResult, BeginSession, BeginRun, AppendRun, HeaderRunOf, StaleRun, Payload, Valid;
    hide Step;
    match c
    case Loads => RegisterOne(crc, r, s, Load);
    case LoadsOlder(b) => RegisterOne(crc, r, s, LoadFrom(b));
    case Begins(cut, ok) =>
      if Step(crc, s, BeginWrite).phase.Erasing? {
        BeginNotes(crc, r, s, cut, ok);
      } else {
        RegisterOne(crc, r, s, BeginWrite);
      }
    case Appends(chunk, cut, ok) =>
      if s.phase.s.failed || BANK_HEADER_BYTES + s.phase.s.written + |chunk| > |s.disk.At(s.phase.s.target)| {
        RegisterOne(crc, r, s, Append(chunk));
      } else {
        AppendNotes(crc, r, s, chunk, cut, ok);
      }
    case Commits(cut, ok, staleCut, staleOk) =>
      if s.phase.s.failed {
        RegisterOne(crc, r, s, Commit);
      } else {
        HeaderNotes(crc, r, s, cut, ok);
        var stale := if ok && s.phase.s.stale.Some? then StaleRun(staleCut, staleOk) else [];
        RunSplits(crc, s, r, HeaderRunOf(cut, ok), stale);
        var r1, s1 := RegisterExec(crc, r, s, HeaderRunOf(cut, ok)), Exec(crc, s, HeaderRunOf(cut, ok));
        StaleNotes(crc, r1, s1, staleCut, staleOk);
        RegisterNone(crc, r1, s1);
      }
    case Aborts => RegisterOne(crc, r, s, Abort);
    case Declines => RegisterNone(crc, r, s);
    case Reboots => RegisterOne(crc, r, s, PowerCut);
  }

  lemma RegisterNone(crc: Crc, r: Register, s: Slot)
    ensures RegisterExec(crc, r, s, []) == r
  {
  }

  // ---- Discipline and count ----

  /** A write begins only after a load since the last boot. */
  predicate LoadedFirst(s: Slot, c: Call) {
    c.Begins? ==> s.loaded
  }

  lemma {:induction false} NoBegins(crc: Crc, s: Slot, a: Action, j: nat)
    requires !a.BeginWrite?
    ensures Disciplined(crc, s, Repeat(a, j)) && SlotMachine.Begins(Repeat(a, j)) == 0
    decreases j
  {
    hide Step;
    if j > 0 {
      assert Repeat(a, j)[1..] == Repeat(a, j - 1);
      NoBegins(crc, Step(crc, s, a), a, j - 1);
    }
  }

  lemma OneDisciplined(crc: Crc, s: Slot, a: Action)
    ensures Disciplined(crc, s, [a]) <==> (a.BeginWrite? ==> s.loaded)
    ensures SlotMachine.Begins([a]) == if a.BeginWrite? then 1 else 0
  {
    hide Step;
    assert [a][1..] == [];
  }

  /** One step, `j` alike, and one more: the shape of every call's run. */
  lemma RunDisciplined(crc: Crc, s: Slot, first: Action, a: Action, j: nat, last: Action)
    requires !a.BeginWrite? && !last.BeginWrite? && (first.BeginWrite? ==> s.loaded)
    ensures Disciplined(crc, s, [first] + Repeat(a, j) + [last])
    ensures SlotMachine.Begins([first] + Repeat(a, j) + [last]) == if first.BeginWrite? then 1 else 0
  {
    hide Exec, Repeat, Disciplined, SlotMachine.Begins, Step;
    OneDisciplined(crc, s, first);
    NoBegins(crc, Exec(crc, s, [first]), a, j);
    OneDisciplined(crc, Exec(crc, s, [first] + Repeat(a, j)), last);
    RunSplits(crc, s, EMPTY_REGISTER, [first], Repeat(a, j));
    RunSplits(crc, s, EMPTY_REGISTER, [first] + Repeat(a, j), [last]);
  }

  lemma StaleDisciplined(crc: Crc, s: Slot, cut: nat, ok: bool)
    ensures Disciplined(crc, s, StaleRun(cut, ok)) && SlotMachine.Begins(StaleRun(cut, ok)) == 0
  {
    hide Exec, Repeat, Disciplined, SlotMachine.Begins, Step;
    var last := if ok then StaleStep else StaleFails;
    NoBegins(crc, s, StaleStep, cut);
    OneDisciplined(crc, Exec(crc, s, Repeat(StaleStep, cut)), last);
    RunSplits(crc, s, EMPTY_REGISTER, Repeat(StaleStep, cut), [last]);
  }

  lemma CallDisciplined(crc: Crc, s: Slot, c: Call)
    requires CanHappen(crc, s, c) && LoadedFirst(s, c)
    ensures Disciplined(crc, s, CallRun(crc, s, c))
    ensures SlotMachine.Begins(CallRun(crc, s, c)) == if c.Begins? then 1 else 0
  {
    hide Exec, Repeat, LoadBank, BeginSession, StaleRun, Valid, Disciplined, SlotMachine.Begins, Step;
    match c
    case Loads => OneDisciplined(crc, s, Load);
    case LoadsOlder(b) => OneDisciplined(crc, s, LoadFrom(b));
    case Begins(cut, ok) =>
      OneDisciplined(crc, s, BeginWrite);
      RunDisciplined(crc, s, BeginWrite, EraseStep, cut, if ok then EraseStep else EraseFails);
    case Appends(chunk, cut, ok) =>
      OneDisciplined(crc, s, Append(chunk));
      RunDisciplined(crc, s, Append(chunk), AppendStep, cut, if ok then AppendStep else AppendFails);
    case Commits(cut, ok, staleCut, staleOk) =>
      OneDisciplined(crc, s, Commit);
      RunDisciplined(crc, s, Commit, HeaderStep, cut, if ok then HeaderStep else HeaderFails);
      var stale := if ok && s.phase.s.stale.Some? then StaleRun(staleCut, staleOk) else [];
      var s1 := Exec(crc, s, HeaderRunOf(cut, ok));
      StaleDisciplined(crc, s1, staleCut, staleOk);
      NothingDisciplined(crc, s1);
      RunSplits(crc, s, EMPTY_REGISTER, HeaderRunOf(cut, ok), stale);
    case Aborts => OneDisciplined(crc, s, Abort);
    case Declines => NothingDisciplined(crc, s);
    case Reboots => OneDisciplined(crc, s, PowerCut);
  }

  lemma NothingDisciplined(crc: Crc, s: Slot)
    ensures Disciplined(crc, s, []) && SlotMachine.Begins([]) == 0
  {
  }

  // ---- Sequences of calls ----

  predicate AllHappen(crc: Crc, s: Slot, calls: seq<Call>)
    decreases |calls|
  {
    calls == [] || (CanHappen(crc, s, calls[0]) && LoadedFirst(s, calls[0])
                    && AllHappen(crc, AfterCall(crc, s, calls[0]), calls[1..]))
  }

  function AfterCalls(crc: Crc, s: Slot, calls: seq<Call>): Slot
    requires AllHappen(crc, s, calls)
    decreases |calls|
  {
    if calls == [] then s else AfterCalls(crc, AfterCall(crc, s, calls[0]), calls[1..])
  }

  function NoteCalls(crc: Crc, r: Register, s: Slot, calls: seq<Call>): Register
    requires AllHappen(crc, s, calls)
    decreases |calls|
  {
    if calls == [] then r
    else NoteCalls(crc, NoteCall(crc, r, s, calls[0]), AfterCall(crc, s, calls[0]), calls[1..])
  }

  function CallsRun(crc: Crc, s: Slot, calls: seq<Call>): seq<Action>
    requires AllHappen(crc, s, calls)
    decreases |calls|
  {
    if calls == [] then []
    else CallRun(crc, s, calls[0]) + CallsRun(crc, AfterCall(crc, s, calls[0]), calls[1..])
  }

  function BeginCount(calls: seq<Call>): nat {
    if calls == [] then 0 else (if calls[0].Begins? then 1 else 0) + BeginCount(calls[1..])
  }

  /** Every sequence of calls is a disciplined run of the machine, in what it leaves and in what the caller knows. */
  lemma {:induction false} CallsAreRun(crc: Crc, r: Register, s: Slot, calls: seq<Call>)
    requires AllHappen(crc, s, calls)
    ensures var run := CallsRun(crc, s, calls);
            && Exec(crc, s, run) == AfterCalls(crc, s, calls)
            && RegisterExec(crc, r, s, run) == NoteCalls(crc, r, s, calls)
            && Disciplined(crc, s, run) && SlotMachine.Begins(run) == BeginCount(calls)
    decreases |calls|
  {
    hide CanHappen, AfterCall, NoteCall, CallRun, Step, RegisterStep;
    if calls != [] {
      var c := calls[0];
      var s1, r1 := AfterCall(crc, s, c), NoteCall(crc, r, s, c);
      CallIsRun(crc, s, c);
      CallNotes(crc, r, s, c);
      CallDisciplined(crc, s, c);
      CallsAreRun(crc, r1, s1, calls[1..]);
      RunSplits(crc, s, r, CallRun(crc, s, c), CallsRun(crc, s1, calls[1..]));
    }
  }

  /**
   Crash consistency of the store: after any sequence of calls, failed ones and reboots among them, a
   load gives the payload last committed or loaded, or one whose commit was tried since.
   */
  lemma StoreIsCrashConsistent(crc: Crc, n: nat, calls: seq<Call>)
    requires Chains(crc) && BANK_HEADER_BYTES <= n <= MAX_BANK_BYTES
    requires AllHappen(crc, BlankSlot(n), calls) && BeginCount(calls) < SEQ_LIMIT
    ensures LoadResult(crc, AfterCalls(crc, BlankSlot(n), calls).disk)
            in NoteCalls(crc, EMPTY_REGISTER, BlankSlot(n), calls).possible
  {
    hide AllHappen, LoadResult, BlankSlot, Chains;
    CallsAreRun(crc, EMPTY_REGISTER, BlankSlot(n), calls);
    CrashConsistent(crc, n, CallsRun(crc, BlankSlot(n), calls));
  }

  // ---- What an observer of the object sees ----

  /** Each call took the slot from one view to the next. */
  predicate Observed(crc: Crc, views: seq<Slot>, calls: seq<Call>) {
    |views| == |calls| + 1 && forall i | 0 <= i < |calls| :: Happens(crc, views[i], views[i + 1], calls[i])
  }

  /** A load comes before the first write after every boot. */
  predicate LoadsFirst(loaded: bool, calls: seq<Call>)
    decreases |calls|
  {
    calls == [] ||
    ((calls[0].Begins? ==> loaded)
     && LoadsFirst(if calls[0].Reboots? then false else loaded || calls[0].Loads? || calls[0].LoadsOlder?, calls[1..]))
  }

  lemma CallLoads(crc: Crc, s: Slot, c: Call)
    requires CanHappen(crc, s, c)
    ensures AfterCall(crc, s, c).loaded == if c.Reboots? then false else s.loaded || c.Loads? || c.LoadsOlder?
  {
    hide LoadBank, BeginSession, Valid, IsBlank, Erased, Programmed, Encode, HeaderOf;
  }

  lemma {:induction false} ObservedHappens(crc: Crc, s: Slot, views: seq<Slot>, calls: seq<Call>)
    requires Observed(crc, views, calls) && views[0] == s.(loaded := false) && LoadsFirst(s.loaded, calls)
    ensures AllHappen(crc, s, calls) && AfterCalls(crc, s, calls).(loaded := false) == views[|calls|]
    decreases |calls|
  {
    hide CanHappen, AfterCall;
    if calls != [] {
      var c := calls[0];
      assert Happens(crc, views[0], views[1], c);
      LoadedDecidesNothing(crc, s, false, c);
      CallLoads(crc, s, c);
      assert Observed(crc, views[1..], calls[1..]);
      ObservedHappens(crc, AfterCall(crc, s, c), views[1..], calls[1..]);
    }
  }

  /**
   Whatever a store over erased flash went through, call by call, what a load of the slice gives is
   among what its caller knows may be stored.
   */
  lemma StoreKeepsItsSlice(crc: Crc, n: nat, views: seq<Slot>, calls: seq<Call>)
    requires Chains(crc) && BANK_HEADER_BYTES <= n <= MAX_BANK_BYTES
    requires Observed(crc, views, calls) && views[0] == BlankSlot(n) && LoadsFirst(false, calls)
    requires BeginCount(calls) < SEQ_LIMIT
    ensures AllHappen(crc, BlankSlot(n), calls)
    ensures LoadResult(crc, views[|calls|].disk) in NoteCalls(crc, EMPTY_REGISTER, BlankSlot(n), calls).possible
  {
    hide Observed, LoadsFirst, LoadResult, Chains, BeginCount;
    ObservedHappens(crc, BlankSlot(n), views, calls);
    StoreIsCrashConsistent(crc, n, calls);
  }
}
