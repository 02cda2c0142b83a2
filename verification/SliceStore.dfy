/** The slice store over raw flash, call by call (slice_store_core.rs). */
module SliceStore {
  import opened Wrappers
  import opened SliceLayout
  import opened BankFormat
  import opened SlotMachine
  import opened SliceCalls
  import Calls = StoreRuns

  datatype StoreError = Missing | TooLarge(len: nat, capacity: nat) | Backend | Deferred

  datatype Result<+T> = Ok(value: T) | Err(error: StoreError)

  const ERASE_SCAN_CHUNK_BYTES := 256
  const IO_CHUNK_BYTES := 1024

  datatype FlashOp = Reads | Writes | Erases

  /** An operation of the flash that reported an error, and where it began. */
  datatype Fault = Fault(op: FlashOp, off: nat)

  /**
   A NOR device. A write or an erase that fails has reached some prefix of its range; a read may fail.
   Only the device decides what fails, and `faults` has it all.
   */
  class RawFlash {
    const bytes: array<u8>
    const crc: Crc
    ghost var faults: seq<Fault>

    constructor (size: nat, crc: Crc)
      ensures fresh(bytes) && bytes.Length == size && IsBlank(bytes[..]) && this.crc == crc && faults == []
    {
      bytes := new u8[size](_ => ERASED_BYTE);
      this.crc := crc;
      faults := [];
    }

    method Read(off: nat, len: nat) returns (r: Option<seq<u8>>)
      requires off + len <= bytes.Length
      modifies this`faults
      ensures r.Some? ==> r.value == bytes[off..off + len] && faults == old(faults)
      ensures r.None? ==> faults == old(faults) + [Fault(Reads, off)]
    {
      var works: bool := *;
      if works {
        r := Some(bytes[off..off + len]);
      } else {
        faults := faults + [Fault(Reads, off)];
        r := None;
      }
    }

    /** `cut` is how far the hardware got; the caller sees only `ok`. */
    method Write(off: nat, data: seq<u8>) returns (ok: bool, cut: nat)
      requires off + |data| <= bytes.Length
      modifies bytes, this`faults
      ensures cut <= |data| && (ok ==> cut == |data|)
      ensures bytes[..] == Programmed(old(bytes[..]), off, data[..cut])
      ensures faults == if ok then old(faults) else old(faults) + [Fault(Writes, off)]
    {
      var reach: int := *;
      cut := if 0 <= reach < |data| then reach else |data|;
      ok := *;
      ok := ok && cut == |data|;
      faults := if ok then faults else faults + [Fault(Writes, off)];
      for i := 0 to cut
        invariant bytes[..] == Programmed(old(bytes[..]), off, data[..i])
        invariant faults == if ok then old(faults) else old(faults) + [Fault(Writes, off)]
      {
        ProgramNext(old(bytes[..]), off, data, i);
        bytes[off + i] := NorAnd(bytes[off + i], data[i]);
      }
    }

    method Erase(off: nat, len: nat) returns (ok: bool, cut: nat)
      requires off + len <= bytes.Length
      modifies bytes, this`faults
      ensures cut <= len && (ok ==> cut == len)
      ensures bytes[..] == Erased(old(bytes[..]), off, cut)
      ensures faults == if ok then old(faults) else old(faults) + [Fault(Erases, off)]
    {
      hide Erased;
      var reach: int := *;
      cut := if 0 <= reach < len then reach else len;
      ok := *;
      ok := ok && cut == len;
      faults := if ok then faults else faults + [Fault(Erases, off)];
      ghost var was := bytes[..];
      ErasedNone(was, off);
      for i := 0 to cut
        invariant bytes[..] == Erased(was, off, i)
        invariant faults == if ok then old(faults) else old(faults) + [Fault(Erases, off)]
      {
        EraseNext(was, off, i);
        bytes[off + i] := ERASED_BYTE;
      }
    }
  }

  // ---- Faults ----

  /** A read of this bank failed between the two records: of its header, or of its payload. */
  predicate HeaderFault(before: seq<Fault>, now: seq<Fault>, g: SlotGeometry, bank: Bank) {
    exists k | |before| <= k < |now| :: now[k] == Fault(Reads, g.BankOffset(bank))
  }

  predicate PayloadFault(before: seq<Fault>, now: seq<Fault>, g: SlotGeometry, bank: Bank) {
    exists k | |before| <= k < |now| :: InPayload(now[k], g, bank)
  }

  predicate InPayload(f: Fault, g: SlotGeometry, bank: Bank) {
    f.op.Reads? && g.BankOffset(bank) + BANK_HEADER_BYTES <= f.off < g.BankOffset(bank) + g.bankBytes
  }

  /** What failed stays on record. */
  lemma FaultsStay(before: seq<Fault>, mid: seq<Fault>, now: seq<Fault>, g: SlotGeometry)
    requires before <= mid <= now
    ensures forall bank: Bank | HeaderFault(before, mid, g, bank) :: HeaderFault(before, now, g, bank)
    ensures forall bank: Bank | PayloadFault(before, mid, g, bank) :: PayloadFault(before, now, g, bank)
    ensures forall bank: Bank | HeaderFault(mid, now, g, bank) :: HeaderFault(before, now, g, bank)
    ensures forall bank: Bank | PayloadFault(mid, now, g, bank) :: PayloadFault(before, now, g, bank)
  {
    hide InPayload;
    forall bank: Bank | PayloadFault(before, mid, g, bank) ensures PayloadFault(before, now, g, bank) {
      var k :| |before| <= k < |mid| && InPayload(mid[k], g, bank);
      assert now[k] == mid[k];
    }
    forall bank: Bank | HeaderFault(before, mid, g, bank) ensures HeaderFault(before, now, g, bank) {
      var k :| |before| <= k < |mid| && mid[k] == Fault(Reads, g.BankOffset(bank));
      assert now[k] == mid[k];
    }
  }

  lemma JoinSlices(b: seq<u8>, lo: nat, mid: nat, hi: nat)
    requires lo <= mid <= hi <= |b|
    ensures b[lo..mid] + b[mid..hi] == b[lo..hi]
  {
  }

  // ---- Packed memories ----

  const SERVED_BANK_RADIX := 0x100

  /** The served word keeps the bank plus one in its low byte and the generation above. */
  function ServedOf(word: u32): Served {
    var packed := word % SERVED_BANK_RADIX;
    Served(word / SERVED_BANK_RADIX, if packed == 0 || packed > 2 then None else Some(packed - 1))
  }

  function WordOf(generation: nat, bank: Bank): u32
    requires generation < GENERATIONS
  {
    generation * SERVED_BANK_RADIX + bank + 1
  }

  /** Packing loses nothing. */
  lemma WordRoundTrip(generation: nat, bank: Bank)
    requires generation < GENERATIONS
    ensures ServedOf(WordOf(generation, bank)) == Served(generation, Some(bank))
  {
  }

  function ErasedOf(cell: u8): Option<Bank> {
    if cell == 0 || cell > 2 then None else Some(cell - 1)
  }

  datatype SlotMemory = SlotMemory(served: u32, erased: u8, writing: bool)

  /** Banks are 0 or 1, so a packed cell is at most 2. */
  predicate Packed(m: SlotMemory) {
    m.served % SERVED_BANK_RADIX <= 2 && m.erased <= 2
  }

  class SliceStoreCore {
    const flash: RawFlash
    const slots: array<SlotMemory>

    constructor (flash: RawFlash)
      requires flash.bytes.Length == LAYOUT_BYTES
      ensures Valid() && this.flash == flash && fresh(slots)
      ensures forall i | 0 <= i < slots.Length :: slots[i] == SlotMemory(0, 0, false)
    {
      this.flash := flash;
      slots := new SlotMemory[TOTAL_SLOT_COUNT](_ => SlotMemory(0, 0, false));
    }

    ghost predicate Valid()
      reads slots
    {
      && flash.bytes.Length == LAYOUT_BYTES && slots.Length == TOTAL_SLOT_COUNT
      && forall i | 0 <= i < slots.Length :: Packed(slots[i])
    }

    /** The slot with index `i` as a machine state. */
    ghost function View(i: nat, phase: Phase): Slot
      requires i < slots.Length && flash.bytes.Length == LAYOUT_BYTES && slots.Length == TOTAL_SLOT_COUNT
      reads flash.bytes, slots
    {
      IndexFits(i);
      Slot(DiskAt(flash.bytes[..], GeometryAt(i)), ServedOf(slots[i].served), ErasedOf(slots[i].erased), phase, false)
    }

    /** Only the word of slot `i` may have changed, and in it only the served part. */
    twostate predicate OnlyServed(i: nat)
      requires old(Valid()) && Valid()
      reads slots
    {
      forall j | 0 <= j < slots.Length ::
        if j == i then slots[j] == old(slots[j]).(served := slots[j].served) else slots[j] == old(slots[j])
    }

    /** No operation of the flash has failed since. */
    twostate predicate Faultless()
      reads flash`faults
    {
      flash.faults == old(flash.faults)
    }

    method Header(i: nat, bank: Bank) returns (r: Option<Option<BankHeader>>)
      requires Valid() && i < TOTAL_SLOT_COUNT
      modifies flash`faults
      ensures r.Some? ==> r.value == Decode(View(i, Idle).disk.At(bank)) && Faultless()
      ensures r.None? ==> flash.faults == old(flash.faults) + [Fault(Reads, GeometryAt(i).BankOffset(bank))]
    {
      hide GeometryAt, Decode;
      IndexFits(i);
      BankSlice(flash.bytes[..], GeometryAt(i), bank, 0, BANK_HEADER_BYTES);
      var raw := flash.Read(GeometryAt(i).BankOffset(bank), BANK_HEADER_BYTES);
      if raw.None? {
        return None;
      }
      ghost var b := View(i, Idle).disk.At(bank);
      assert raw.value == b[..BANK_HEADER_BYTES];
      DecodePrefix(b);
      return Some(Decode(raw.value));
    }

    /** The banks a load will try, newest first, each with its header. */
    method CandidateBanks(i: nat) returns (r: Option<seq<(Bank, BankHeader)>>)
      requires Valid() && i < TOTAL_SLOT_COUNT
      modifies flash`faults
      ensures r.Some? ==> Lists(r.value, View(i, Idle).disk) && Faultless()
      ensures r.None? ==> !Faultless() && old(flash.faults) <= flash.faults
                          && exists bank: Bank :: HeaderFault(old(flash.faults), flash.faults, GeometryAt(i), bank)
    {
      hide GeometryAt, Decode, DiskAt;
      IndexFits(i);
      ghost var d := View(i, Idle).disk;
      var found: seq<(Bank, BankHeader)> := [];
      for bank := 0 to 2
        invariant found == (if bank > 0 && Candidate(d.bank0) then [(0, Decode(d.bank0).value)] else [])
                         + (if bank > 1 && Candidate(d.bank1) then [(1, Decode(d.bank1).value)] else [])
        invariant Faultless()
      {
        var header := Header(i, bank);
        if header.None? {
          assert flash.faults[|old(flash.faults)|] == Fault(Reads, GeometryAt(i).BankOffset(bank));
          assert HeaderFault(old(flash.faults), flash.faults, GeometryAt(i), bank);
          return None;
        }
        if header.value.Some? && header.value.value.len <= GeometryAt(i).bankBytes - BANK_HEADER_BYTES {
          found := found + [(bank, header.value.value)];
        }
      }
      if |found| == 2 && found[1].1.seqNo > found[0].1.seqNo {
        found := [found[1], found[0]];
      }
      return Some(found);
    }

    /** A part of a bank as the flash holds it. */
    method ReadBank(i: nat, bank: Bank, o: nat, len: nat) returns (r: Option<seq<u8>>)
      requires Valid() && i < TOTAL_SLOT_COUNT && o + len <= |View(i, Idle).disk.At(bank)|
      modifies flash`faults
      ensures r.Some? ==> r.value == View(i, Idle).disk.At(bank)[o..o + len] && Faultless()
      ensures r.None? ==> flash.faults == old(flash.faults) + [Fault(Reads, GeometryAt(i).BankOffset(bank) + o)]
    {
      hide GeometryAt;
      IndexFits(i);
      BankSlice(flash.bytes[..], GeometryAt(i), bank, o, len);
      r := flash.Read(GeometryAt(i).BankOffset(bank) + o, len);
    }

    ghost function BankOf(i: nat, bank: Bank): (b: seq<u8>)
      requires i < slots.Length && flash.bytes.Length == LAYOUT_BYTES && slots.Length == TOTAL_SLOT_COUNT
      reads flash.bytes, slots
      ensures |b| == GeometryAt(i).bankBytes && b == View(i, Idle).disk.At(bank)
    {
      IndexFits(i);
      View(i, Idle).disk.At(bank)
    }

    /** Scan a bank chunk by chunk for a byte that is not erased. */
    method IsErased(i: nat, bank: Bank) returns (r: Option<bool>)
      requires Valid() && i < TOTAL_SLOT_COUNT
      modifies flash`faults
      ensures r.Some? ==> r.value == IsBlank(View(i, Idle).disk.At(bank)) && Faultless()
      ensures r.None? ==> !Faultless()
    {
      hide GeometryAt, DiskAt;
      ghost var b := BankOf(i, bank);
      var size := GeometryAt(i).bankBytes;
      var offset := 0;
      while offset < size
        invariant 0 <= offset <= size == |b| && IsBlank(b[..offset]) && Faultless()
      {
        var take := if size - offset < ERASE_SCAN_CHUNK_BYTES then size - offset else ERASE_SCAN_CHUNK_BYTES;
        var chunk := ReadBank(i, bank, offset, take);
        if chunk.None? {
          return None;
        }
        var blank := AllErased(chunk.value);
        if !blank {
          NotBlank(b, offset, take);
          return Some(false);
        }
        assert b[..offset + take] == b[..offset] + chunk.value;
        offset := offset + take;
      }
      assert b[..offset] == b;
      return Some(true);
    }

    /** Read a payload in I/O chunks. */
    method ReadPayload(i: nat, bank: Bank, len: nat) returns (r: Option<seq<u8>>)
      requires Valid() && i < TOTAL_SLOT_COUNT && len <= GeometryAt(i).bankBytes - BANK_HEADER_BYTES
      modifies flash`faults
      ensures r.Some? ==> r.value == View(i, Idle).disk.At(bank)[BANK_HEADER_BYTES..BANK_HEADER_BYTES + len] && Faultless()
      ensures r.None? ==> !Faultless() && old(flash.faults) <= flash.faults
                          && PayloadFault(old(flash.faults), flash.faults, GeometryAt(i), bank)
    {
      hide GeometryAt, DiskAt;
      ghost var b := BankOf(i, bank);
      var payload := [];
      while |payload| < len
        invariant |payload| <= len && payload == b[BANK_HEADER_BYTES..BANK_HEADER_BYTES + |payload|] && Faultless()
        decreases len - |payload|
      {
        var take := if len - |payload| < IO_CHUNK_BYTES then len - |payload| else IO_CHUNK_BYTES;
        var chunk := ReadBank(i, bank, BANK_HEADER_BYTES + |payload|, take);
        if chunk.None? {
          assert InPayload(flash.faults[|old(flash.faults)|], GeometryAt(i), bank);
          return None;
        }
        JoinSlices(b, BANK_HEADER_BYTES, BANK_HEADER_BYTES + |payload|, BANK_HEADER_BYTES + |payload| + take);
        payload := payload + chunk.value;
      }
      return Some(payload);
    }

    /**
     Without a fault the call is the machine's Load. The bank a load should read is passed over only
     when a read of its payload failed, and an error is returned only for want of a readable bank.
     */
    method Load(key: SliceKey) returns (r: Result<seq<u8>>)
      requires Valid()
      modifies slots, flash`faults
      ensures Valid() && old(flash.faults) <= flash.faults
      ensures GeometryOf(key).None? ==> r == Err(Missing) && slots[..] == old(slots[..]) && Faultless()
      ensures GeometryOf(key).Some? ==>
                var i := IndexOf(key);
                var before, now := old(View(i, Idle)), View(i, Idle);
                && OnlyServed(i)
                && (Faultless() ==> Calls.Happens(flash.crc, before, now, Calls.Loads)
                                    && r == match LoadResult(flash.crc, before.disk)
                                            case Some(p) => Ok(p)
                                            case None => Err(Missing))
                && (r.Ok? ==> now.served.bank.Some?
                              && BankFormat.Valid(flash.crc, before.disk.At(now.served.bank.value))
                              && r.value == Payload(before.disk.At(now.served.bank.value))
                              && LoadedOrFaulty(flash.crc, before.disk, now.served.bank, old(flash.faults), flash.faults, i))
                && (r.Ok? && !Faultless() ==>
                      Calls.Happens(flash.crc, before, now, Calls.LoadsOlder(now.served.bank.value)))
                && (r.Err? ==> now == before && r == Err(if Faultless() then Missing else Backend)
                               && Unreadable(flash.crc, before.disk, old(flash.faults), flash.faults, i))
    {
      if GeometryOf(key).None? {
        return Err(Missing);
      }
      hide GeometryAt, DiskAt, GeometryOf, SlotIndex, KeyAt, LoadBank, Calls.Happens, LoadedOrFaulty, Unreadable;
      r := LoadSlot(IndexOf(key));
    }

    method LoadSlot(i: nat) returns (r: Result<seq<u8>>)
      requires Valid() && i < TOTAL_SLOT_COUNT
      modifies slots, flash`faults
      ensures Valid() && old(flash.faults) <= flash.faults && OnlyServed(i)
      ensures var before, now := old(View(i, Idle)), View(i, Idle);
              && (Faultless() ==> Calls.Happens(flash.crc, before, now, Calls.Loads)
                                  && r == match LoadResult(flash.crc, before.disk)
                                          case Some(p) => Ok(p)
                                          case None => Err(Missing))
              && (r.Ok? ==> now.served.bank.Some?
                            && BankFormat.Valid(flash.crc, before.disk.At(now.served.bank.value))
                            && r.value == Payload(before.disk.At(now.served.bank.value))
                            && LoadedOrFaulty(flash.crc, before.disk, now.served.bank, old(flash.faults), flash.faults, i))
              && (r.Ok? && !Faultless() ==>
                    Calls.Happens(flash.crc, before, now, Calls.LoadsOlder(now.served.bank.value)))
              && (r.Err? ==> now == before && r == Err(if Faultless() then Missing else Backend)
                             && Unreadable(flash.crc, before.disk, old(flash.faults), flash.faults, i))
    {
      hide GeometryAt, Decode, DiskAt, Candidates, LoadBank, Calls.Happens, PayloadFault, HeaderFault, LoadedOrFaulty;
      ghost var before := View(i, Idle);
      IndexFits(i);
      var seen := slots[i].served;
      var found := CandidateBanks(i);
      if found.None? {
        return Err(Backend);
      }
      var hit, lastErr := FirstReadable(i, found.value);
      match hit {
        case None =>
          if Faultless() {
            Calls.LoadHappens(flash.crc, before, None);
          }
          return Err(lastErr);
        case Some((bank, payload)) =>
          if Faultless() {
            Calls.LoadHappens(flash.crc, before, Some(bank));
          }
          Calls.OlderLoadHappens(flash.crc, before, bank);
          Remember(i, seen / SERVED_BANK_RADIX, bank);
          return Ok(payload);
      }
    }

    method Remember(i: nat, generation: nat, bank: Bank)
      requires Valid() && i < TOTAL_SLOT_COUNT && generation < GENERATIONS
      modifies slots
      ensures Valid() && OnlyServed(i)
      ensures View(i, Idle) == old(View(i, Idle)).(served := Served(generation, Some(bank)))
    {
      hide GeometryAt, DiskAt;
      IndexFits(i);
      slots[i] := slots[i].(served := WordOf(generation, bank));
      WordRoundTrip(generation, bank);
    }

    /** The first listed bank that reads and passes its checksum; the error to return when there is none. */
    method FirstReadable(i: nat, found: seq<(Bank, BankHeader)>)
      returns (hit: Option<(Bank, seq<u8>)>, lastErr: StoreError)
      requires Valid() && i < TOTAL_SLOT_COUNT && Lists(found, View(i, Idle).disk)
      modifies flash`faults
      ensures old(flash.faults) <= flash.faults
      ensures var d := View(i, Idle).disk;
              var bank := if hit.None? then None else Some(hit.value.0);
              && (hit.Some? ==> BankFormat.Valid(flash.crc, d.At(hit.value.0)) && hit.value.1 == Payload(d.At(hit.value.0)))
              && LoadedOrFaulty(flash.crc, d, bank, old(flash.faults), flash.faults, i)
              && (Faultless() ==> LoadBank(flash.crc, d) == bank)
              && (hit.None? ==> Unreadable(flash.crc, d, old(flash.faults), flash.faults, i))
      ensures lastErr == if Faultless() then Missing else Backend
    {
      hide GeometryAt, Decode, DiskAt, Candidates, PayloadFault;
      IndexFits(i);
      ghost var d := View(i, Idle).disk;
      lastErr := Missing;
      var j := 0;
      while j < |found|
        invariant 0 <= j <= |found| == |Candidates(d)| && old(flash.faults) <= flash.faults
        invariant lastErr == if Faultless() then Missing else Backend
        invariant Passed(flash.crc, d, j, old(flash.faults), flash.faults, i)
      {
        var (bank, header) := found[j];
        ghost var mid := flash.faults;
        var payload := ReadPayload(i, bank, header.len);
        FaultsStay(old(flash.faults), mid, flash.faults, GeometryAt(i));
        assert Candidates(d)[j..][0] == bank && Candidates(d)[j..][1..] == Candidates(d)[j + 1..];
        if payload.None? {
          lastErr := Backend;
        } else if flash.crc(0, payload.value) == header.crc {
          HitIsLoaded(flash.crc, d, j, old(flash.faults), flash.faults, i);
          return Some((bank, payload.value)), lastErr;
        }
        j := j + 1;
      }
      NoneLeft(flash.crc, d, old(flash.faults), flash.faults, i);
      return None, lastErr;
    }

    /** Only the memory of slot `i` may have changed. */
    twostate predicate OnlySlot(i: nat)
      requires old(Valid()) && Valid()
      reads slots
    {
      forall j | 0 <= j < slots.Length && j != i :: slots[j] == old(slots[j])
    }

    /** The flash differs from before in the banks of slot `i` alone. */
    twostate predicate OnlyBanks(i: nat)
      requires Valid() && old(Valid()) && i < TOTAL_SLOT_COUNT
      reads flash.bytes, slots
    {
      IndexFits(i);
      flash.bytes[..] == Install(old(flash.bytes[..]), GeometryAt(i), DiskAt(flash.bytes[..], GeometryAt(i)))
    }

    method ProgramSlot(i: nat, bank: Bank, o: nat, data: seq<u8>) returns (ok: bool, cut: nat)
      requires Valid() && i < TOTAL_SLOT_COUNT && o + |data| <= GeometryAt(i).bankBytes
      modifies flash.bytes, flash`faults
      ensures cut <= |data| && (ok ==> cut == |data|)
      ensures OnlyBanks(i)
      ensures flash.faults
              == if ok then old(flash.faults) else old(flash.faults) + [Fault(Writes, GeometryAt(i).BankOffset(bank) + o)]
      ensures View(i, Idle).disk
              == old(View(i, Idle).disk).With(bank, Programmed(old(View(i, Idle).disk).At(bank), o, data[..cut]))
    {
      hide GeometryAt, Programmed;
      IndexFits(i);
      var g := GeometryAt(i);
      BankSlice(flash.bytes[..], g, bank, o, |data|);
      ok, cut := flash.Write(g.BankOffset(bank) + o, data);
      ProgramBank(old(flash.bytes[..]), g, bank, o, data[..cut]);
    }

    method EraseSlot(i: nat, bank: Bank) returns (ok: bool, cut: nat)
      requires Valid() && i < TOTAL_SLOT_COUNT
      modifies flash.bytes, flash`faults
      ensures cut <= GeometryAt(i).bankBytes && (ok ==> cut == GeometryAt(i).bankBytes)
      ensures OnlyBanks(i)
      ensures flash.faults
              == if ok then old(flash.faults) else old(flash.faults) + [Fault(Erases, GeometryAt(i).BankOffset(bank))]
      ensures View(i, Idle).disk
              == old(View(i, Idle).disk).With(bank, Erased(old(View(i, Idle).disk).At(bank), 0, cut))
    {
      hide GeometryAt, Erased;
      IndexFits(i);
      var g := GeometryAt(i);
      EraseBank(flash.bytes[..], g, bank, g.bankBytes);
      ok, cut := flash.Erase(g.BankOffset(bank), g.bankBytes);
      EraseBank(old(flash.bytes[..]), g, bank, cut);
    }

    /** An untouched flash differs from itself nowhere. */
    twostate lemma UntouchedBanks(i: nat)
      requires Valid() && old(Valid()) && i < TOTAL_SLOT_COUNT && flash.bytes[..] == old(flash.bytes[..])
      ensures OnlyBanks(i)
    {
      hide GeometryAt;
      IndexFits(i);
      InstallReads(flash.bytes[..], GeometryAt(i), DiskAt(flash.bytes[..], GeometryAt(i)));
    }

    /** What every call on slot `i` leaves alone: the other slots, in memory and on flash. */
    twostate lemma OthersUntouched(i: nat, j: nat)
      requires Valid() && old(Valid()) && i < TOTAL_SLOT_COUNT && j < TOTAL_SLOT_COUNT && i != j
      requires OnlySlot(i) && OnlyBanks(i)
      ensures View(j, Idle) == old(View(j, Idle))
    {
      hide GeometryAt, DiskAt, Install, GeometryOf, KeyAt, SlotIndex;
      IndexFits(i);
      IndexFits(j);
      IndexOfKeyAt(i);
      IndexOfKeyAt(j);
      GeometryByIndex(KeyAt(i));
      GeometryByIndex(KeyAt(j));
      var d := DiskAt(flash.bytes[..], GeometryAt(i));
      DiskSizes(flash.bytes[..], GeometryAt(i));
      NonInterference(old(flash.bytes[..]), KeyAt(i), KeyAt(j), d);
    }

    /**
     `cut` is how far an erase got. A call that ends in an error has released its claim and
     either changed nothing else or erased a part of the target; a slot that is not being written
     gives an error exactly when an operation of the flash failed.
     */
    method BeginWrite(key: SliceKey) returns (r: Result<CoreWriteSession>, cut: nat)
      requires Valid()
      modifies slots, flash.bytes, flash`faults
      ensures Valid()
      ensures GeometryOf(key).None? ==>
                r == Err(Backend) && slots[..] == old(slots[..]) && flash.bytes[..] == old(flash.bytes[..]) && Faultless()
      ensures GeometryOf(key).Some? ==>
                var i := IndexOf(key);
                var before := old(View(i, Idle));
                && OnlySlot(i) && OnlyBanks(i)
                && (old(slots[i].writing) ==> r == Err(Deferred) && slots[i].writing && View(i, Idle) == before)
                && (!old(slots[i].writing) && r.Err? ==>
                      && r == Err(Backend) && !Faultless() && !slots[i].writing
                      && (View(i, Idle) == before
                          || Calls.Happens(flash.crc, before, View(i, Idle), Calls.Begins(cut, false))))
                && (r.Ok? ==> !old(slots[i].writing) && Faultless() && slots[i].writing && fresh(r.value)
                              && r.value.store == this && r.value.index == i && r.value.Valid()
                              && Calls.Happens(flash.crc, before, View(i, Open(r.value.State())), Calls.Begins(cut, true)))
    {
      cut := 0;
      if GeometryOf(key).None? {
        return Err(Backend), 0;
      }
      hide GeometryAt, GeometryOf, SlotIndex, KeyAt, DiskAt, Install, Calls.Happens;
      var i := IndexOf(key);
      IndexFits(i);
      UntouchedBanks(i);
      if slots[i].writing {
        return Err(Deferred), 0;
      }
      r, cut := ClaimAndBegin(i);
    }

    /** The rest of `begin_write`, with the claim in hand. */
    method ClaimAndBegin(i: nat) returns (r: Result<CoreWriteSession>, cut: nat)
      requires Valid() && i < TOTAL_SLOT_COUNT && !slots[i].writing
      modifies slots, flash.bytes, flash`faults
      ensures Valid() && OnlySlot(i) && OnlyBanks(i)
      ensures var before := old(View(i, Idle));
              && (r.Err? ==> r == Err(Backend) && !Faultless() && !slots[i].writing
                             && (View(i, Idle) == before
                                 || Calls.Happens(flash.crc, before, View(i, Idle), Calls.Begins(cut, false))))
              && (r.Ok? ==> Faultless() && slots[i].writing && fresh(r.value)
                            && r.value.store == this && r.value.index == i && r.value.Valid()
                            && Calls.Happens(flash.crc, before, View(i, Open(r.value.State())), Calls.Begins(cut, true)))
    {
      hide GeometryAt, Decode, Candidates, Erased, IsBlank, DiskAt, Install, BeginSession, Calls.Happens;
      cut := 0;
      IndexFits(i);
      UntouchedBanks(i);
      ghost var before := View(i, Idle);
      var plan := PlanSession(i);
      if plan.None? {
        return Err(Backend), 0;
      }
      var Session(target, keep, seqNo, _, _, _) := plan.value;
      var ok, erased;
      ok, erased, cut := PrepareTarget(i, target);
      if erased {
        Calls.EraseHappens(flash.crc, before, cut, ok);
      } else if ok {
        Calls.BeginHappens(flash.crc, before);
      }
      if !ok {
        return Err(Backend), cut;
      }
      slots[i] := slots[i].(erased := 0, writing := true);
      var session := new CoreWriteSession(this, i, target, keep, seqNo);
      return Ok(session), cut;
    }

    /** The session `begin_write` will open: sequence number, kept bank and target. */
    method PlanSession(i: nat) returns (plan: Option<Session>)
      requires Valid() && i < TOTAL_SLOT_COUNT
      modifies flash`faults
      ensures plan.Some? <==> Faultless()
      ensures plan.Some? ==> plan.value == BeginSession(View(i, Idle))
                             && plan.value.written == 0 && plan.value.crc == 0 && !plan.value.failed
    {
      hide GeometryAt, Decode, Candidates, DiskAt;
      IndexFits(i);
      var found := CandidateBanks(i);
      if found.None? {
        return None;
      }
      var newest := if found.value == [] then None else Some(found.value[0].0);
      var seqNo: u32 := if found.value == [] then 1 else (found.value[0].1.seqNo + 1) % 0x1_0000_0000;
      var choice := ChooseBank(ServedOf(slots[i].served).bank, newest);
      return Some(Session(choice.target, choice.keep, seqNo, 0, 0, false));
    }

    /** Make the target blank, unless it is remembered or found to be. */
    method PrepareTarget(i: nat, target: Bank) returns (ok: bool, erased: bool, cut: nat)
      requires Valid() && i < TOTAL_SLOT_COUNT
      modifies flash.bytes, flash`faults
      ensures OnlyBanks(i) && cut <= GeometryAt(i).bankBytes && (!erased ==> cut == 0)
      ensures ok <==> Faultless()
      ensures var before := old(View(i, Idle));
              && (!erased ==> View(i, Idle) == before
                              && (ok ==> before.erased == Some(target) || IsBlank(before.disk.At(target))))
              && (erased ==> before.erased != Some(target) && !IsBlank(before.disk.At(target))
                             && View(i, Idle).disk == before.disk.With(target, Erased(before.disk.At(target), 0, cut))
                             && (ok ==> cut == GeometryAt(i).bankBytes))
    {
      hide GeometryAt, DiskAt, Install, Erased, IsBlank;
      IndexFits(i);
      UntouchedBanks(i);
      erased, cut := false, 0;
      if ErasedOf(slots[i].erased) == Some(target) {
        return true, false, 0;
      }
      var blank := IsErased(i, target);
      if blank.None? {
        return false, false, 0;
      }
      if blank.value {
        return true, false, 0;
      }
      ok, cut := EraseSlot(i, target);
      erased := true;
    }
  }

  /** This is the bank a load reads, or a read of that bank's payload failed. */
  predicate LoadedOrFaulty(crc: Crc, d: Disk, bank: Option<Bank>, before: seq<Fault>, now: seq<Fault>, i: nat)
    requires i < TOTAL_SLOT_COUNT
  {
    var right := LoadBank(crc, d);
    right == bank || (right.Some? && PayloadFault(before, now, GeometryAt(i), right.value))
  }

  /** A header could not be read, or a read failed in every bank that would pass. */
  ghost predicate Unreadable(crc: Crc, d: Disk, before: seq<Fault>, now: seq<Fault>, i: nat)
    requires i < TOTAL_SLOT_COUNT
  {
    || (exists bank: Bank :: HeaderFault(before, now, GeometryAt(i), bank))
    || (forall bank: Bank | BankFormat.Valid(crc, d.At(bank)) :: PayloadFault(before, now, GeometryAt(i), bank))
  }

  /** The first `j` candidates do not pass or could not be read. */
  predicate Passed(crc: Crc, d: Disk, j: nat, before: seq<Fault>, now: seq<Fault>, i: nat)
    requires i < TOTAL_SLOT_COUNT && j <= |Candidates(d)|
  {
    forall k | 0 <= k < j ::
      BankFormat.Valid(crc, d.At(Candidates(d)[k])) ==> PayloadFault(before, now, GeometryAt(i), Candidates(d)[k])
  }

  /** The next candidate passes: it is the one a load reads, unless a better one could not be read. */
  lemma HitIsLoaded(crc: Crc, d: Disk, j: nat, before: seq<Fault>, now: seq<Fault>, i: nat)
    requires i < TOTAL_SLOT_COUNT && j < |Candidates(d)| && before <= now && Passed(crc, d, j, before, now, i)
    requires BankFormat.Valid(crc, d.At(Candidates(d)[j]))
    ensures LoadedOrFaulty(crc, d, Some(Candidates(d)[j]), before, now, i)
    ensures before == now ==> LoadBank(crc, d) == Some(Candidates(d)[j])
  {
    hide Decode, GeometryAt, PayloadFault;
    var found := Candidates(d);
    if j > 0 {
      assert j == 1 && found[1..][0] == found[1];
      assert FirstValid(crc, d, found[1..]) == Some(found[1]);
    }
    assert LoadBank(crc, d) == if BankFormat.Valid(crc, d.At(found[0])) then Some(found[0]) else Some(found[j]);
    NoFault(before, now, GeometryAt(i));
  }

  lemma NoFault(before: seq<Fault>, now: seq<Fault>, g: SlotGeometry)
    ensures before == now ==> forall bank: Bank :: !PayloadFault(before, now, g, bank)
  {
  }

  lemma NoneLeft(crc: Crc, d: Disk, before: seq<Fault>, now: seq<Fault>, i: nat)
    requires i < TOTAL_SLOT_COUNT && before <= now && Passed(crc, d, |Candidates(d)|, before, now, i)
    ensures LoadedOrFaulty(crc, d, None, before, now, i) && Unreadable(crc, d, before, now, i)
    ensures before == now ==> LoadBank(crc, d) == None
  {
    hide Decode, GeometryAt, InPayload, HeaderFault;
    forall bank: Bank | BankFormat.Valid(crc, d.At(bank)) ensures PayloadFault(before, now, GeometryAt(i), bank) {
      assert bank in Candidates(d);
    }
  }

  lemma DiskSizes(f: seq<u8>, g: SlotGeometry)
    requires Fits(f, g)
    ensures |DiskAt(f, g).bank0| == |DiskAt(f, g).bank1| == g.bankBytes
  {
  }

  /** A list of banks with their headers, in the order of `Candidates`. */
  predicate Lists(found: seq<(Bank, BankHeader)>, d: Disk) {
    && |found| == |Candidates(d)|
    && forall j | 0 <= j < |found| :: found[j].0 == Candidates(d)[j] && Candidate(d.At(found[j].0))
                                      && found[j].1 == Decode(d.At(found[j].0)).value
  }

  /** A header decodes from the first 16 bytes. */
  lemma DecodePrefix(b: seq<u8>)
    requires |b| >= BANK_HEADER_BYTES
    ensures Decode(b[..BANK_HEADER_BYTES]) == Decode(b)
  {
  }

  method AllErased(chunk: seq<u8>) returns (r: bool)
    ensures r == IsBlank(chunk)
  {
    for k := 0 to |chunk|
      invariant IsBlank(chunk[..k])
    {
      if chunk[k] != ERASED_BYTE {
        return false;
      }
    }
    assert chunk[..|chunk|] == chunk;
    return true;
  }

  lemma NotBlank(b: seq<u8>, offset: nat, take: nat)
    requires offset + take <= |b| && !IsBlank(b[offset..offset + take])
    ensures !IsBlank(b)
  {
    var k :| 0 <= k < take && b[offset..offset + take][k] != ERASED_BYTE;
    assert b[offset + k] != ERASED_BYTE;
  }

  class CoreWriteSession {
    const store: SliceStoreCore
    const index: nat
    const target: Bank
    const stale: Option<Bank>
    const seqNo: u32
    var written: nat
    var crc: u32
    var failed: bool

    constructor (store: SliceStoreCore, index: nat, target: Bank, stale: Option<Bank>, seqNo: u32)
      requires store.Valid() && index < TOTAL_SLOT_COUNT
      ensures this.store == store && this.index == index && Valid()
      ensures State() == Session(target, stale, seqNo, 0, 0, false)
    {
      this.store, this.index, this.target, this.stale, this.seqNo := store, index, target, stale, seqNo;
      written, crc, failed := 0, 0, false;
    }

    ghost function State(): Session
      reads this
    {
      Session(target, stale, seqNo, written, crc, failed)
    }

    ghost predicate Valid()
      reads this, store.slots
    {
      && store.Valid() && index < TOTAL_SLOT_COUNT
      && BANK_HEADER_BYTES + written <= GeometryAt(index).bankBytes
    }

    /** A session that has not failed refuses a chunk for its length, or when the flash fails to take it. */
    method Append(chunk: seq<u8>) returns (r: Result<()>, cut: nat)
      requires Valid()
      modifies this, store.flash.bytes, store.flash`faults
      ensures Valid() && cut <= |chunk| && (r.Ok? ==> cut == |chunk|)
      ensures store.OnlyBanks(index)
      ensures Calls.Happens(store.flash.crc, old(store.View(index, Open(State()))), store.View(index, Open(State())),
                            Calls.Appends(chunk, cut, r.Ok?))
      ensures old(failed) ==> r == Err(Backend)
      ensures !old(failed) && r.Err? ==> failed
      ensures r.Err? && r.error.TooLarge? <==>
              !old(failed) && old(written) + |chunk| > GeometryAt(index).bankBytes - BANK_HEADER_BYTES
      ensures r.Err? && r.error.TooLarge? ==>
                r.error == TooLarge(old(written) + |chunk|, GeometryAt(index).bankBytes - BANK_HEADER_BYTES)
      ensures r.Ok? <==> !old(failed) && store.Faultless()
                         && old(written) + |chunk| <= GeometryAt(index).bankBytes - BANK_HEADER_BYTES
    {
      hide GeometryAt, Programmed, DiskAt, Install;
      IndexFits(index);
      var g := GeometryAt(index);
      store.UntouchedBanks(index);
      cut := 0;
      if failed {
        return Err(Backend), 0;
      }
      var end := written + |chunk|;
      if end > g.bankBytes - BANK_HEADER_BYTES {
        failed := true;
        return Err(TooLarge(end, g.bankBytes - BANK_HEADER_BYTES)), 0;
      }
      var ok;
      ok, cut := store.ProgramSlot(index, target, BANK_HEADER_BYTES + written, chunk);
      if !ok {
        failed := true;
        return Err(Backend), cut;
      }
      crc := store.flash.crc(crc, chunk);
      written := end;
      return Ok(()), cut;
    }

    /** A write failed between the two records; a commit writes its header and nothing else. */
    ghost predicate HeaderRefused(before: seq<Fault>, now: seq<Fault>) {
      exists k | |before| <= k < |now| :: now[k].op.Writes?
    }

    /** An aborted session only releases its claim; what it programmed stays for the next begin to erase. */
    method Abort()
      requires Valid()
      modifies store.slots
      ensures store.Valid() && !store.slots[index].writing && store.OnlySlot(index)
      ensures store.View(index, Idle) == old(store.View(index, Idle)) && store.OnlyBanks(index)
      ensures Calls.Happens(store.flash.crc, old(store.View(index, Open(State()))), store.View(index, Idle), Calls.Aborts)
    {
      hide GeometryAt;
      store.UntouchedBanks(index);
      store.slots[index] := store.slots[index].(writing := false);
    }

    /**
     The claim is released however the commit ends. It fails for an earlier failure or a header the
     flash did not take; the superseded bank is then erased, unless the flash fails in that.
     */
    method Commit() returns (r: Result<()>, cut: nat, staleCut: nat, staleOk: bool)
      requires Valid()
      modifies store.slots, store.flash.bytes, store.flash`faults
      ensures store.Valid() && !store.slots[index].writing
      ensures store.OnlySlot(index) && store.OnlyBanks(index)
      ensures cut <= BANK_HEADER_BYTES && staleCut <= GeometryAt(index).bankBytes
      ensures Calls.Happens(store.flash.crc, old(store.View(index, Open(State()))), store.View(index, Idle),
                            Calls.Commits(cut, r.Ok?, staleCut, staleOk))
      ensures r.Err? ==> r == Err(Backend)
      ensures r.Ok? <==> !failed && !HeaderRefused(old(store.flash.faults), store.flash.faults)
      ensures staleOk <==> r.Ok? && stale.Some? && store.Faultless()
    {
      hide GeometryAt, Programmed, Erased, Encode, DiskAt, Install;
      IndexFits(index);
      store.UntouchedBanks(index);
      cut, staleCut, staleOk := 0, 0, false;
      store.slots[index] := store.slots[index].(writing := false);
      if failed {
        return Err(Backend), 0, 0, false;
      }
      var header := Encode(HeaderOf(Session(target, stale, seqNo, written, crc, failed)));
      var ok;
      ok, cut := store.ProgramSlot(index, target, 0, header);
      if !ok {
        assert store.flash.faults[|old(store.flash.faults)|].op.Writes?;
        return Err(Backend), cut, 0, false;
      }
      var served := store.slots[index].served;
      var generation := (served / SERVED_BANK_RADIX + 1) % GENERATIONS;
      store.slots[index] := store.slots[index].(served := WordOf(generation, target));
      WordRoundTrip(generation, target);
      if stale.Some? {
        ghost var d := store.View(index, Idle).disk;
        staleOk, staleCut := store.EraseSlot(index, stale.value);
        InstallTwice(old(store.flash.bytes[..]), GeometryAt(index), d, store.View(index, Idle).disk);
        if staleOk {
          store.slots[index] := store.slots[index].(erased := stale.value + 1);
        }
      }
      return Ok(()), cut, staleCut, staleOk;
    }
  }

  /** The slot of a key that has one. */
  function IndexOf(key: SliceKey): (i: nat)
    requires GeometryOf(key).Some?
    ensures i < TOTAL_SLOT_COUNT && GeometryOf(key) == Some(GeometryAt(i)) && KeyAt(i) == key
  {
    GeometryByIndex(key);
    SlotIndex(key).value
  }

  lemma IndexFits(i: nat)
    requires i < TOTAL_SLOT_COUNT
    ensures GeometryAt(i).offset + 2 * GeometryAt(i).bankBytes <= LAYOUT_BYTES
    ensures BANK_HEADER_BYTES < GeometryAt(i).bankBytes < MAX_BANK_BYTES
  {
  }
}
