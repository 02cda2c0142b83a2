/** The table of prepared answers (answer_table.rs): who is addressed, what an entry says, and the lookup. */
module AnswerTable {
  import opened Wrappers
  import opened Fsm

  const NO_SHORT_ADDRESS: bv8 := 0xFF
  const DEVICE_QUERY_FIRST_OPCODE := 0x30
  const DEVICE_QUERY_ENTRIES := 32
  const COMPARE_ENTRY := DEVICE_QUERY_ENTRIES
  const VERIFY_SHORT_ADDRESS_ENTRY := DEVICE_QUERY_ENTRIES + 1
  const QUERY_SHORT_ADDRESS_ENTRY := DEVICE_QUERY_ENTRIES + 2
  const ANSWER_ENTRIES := DEVICE_QUERY_ENTRIES + 3
  const ENTRY_PRESENT: bv32 := 0x100
  const LEASE_TTL_MS := 3000
  const ANSWER_LEASE_MAX_TICKS := LEASE_TTL_MS * 1_000 / PHY_TICK_US
  const TABLE_MAX_AGE_TICKS := 100 * 1_000 / PHY_TICK_US
  const TICK_LIMIT := 0x1_0000_0000

  /** A 24-bit forward frame: address, instance and opcode byte. */
  datatype Query = Query(address: bv8, instance: bv8, opcode: bv8)

  // ---- Addressing (section 7.2 of IEC 62386-103) ----

  predicate GroupBit(groups: bv32, g: nat)
    requires g < 32
  {
    (groups >> g) & 1 != 0
  }

  function GroupOf(address: bv8): (g: nat)
    ensures g < 32
  {
    var b := (address >> 1) & 0x1F;
    assert b < 32;
    b as nat
  }

  predicate AddressesTheDevice(address: bv8, shortAddress: bv8, groups: bv32) {
    if address == 0xFF then true
    else if address == 0xFD then shortAddress == NO_SHORT_ADDRESS
    else if address & 0x80 == 0 then (address >> 1) & 0x3F == shortAddress
    else if address & 0xC0 == 0x80 then GroupBit(groups, GroupOf(address))
    else false
  }

  /** Broadcast, broadcast to the unaddressed, the short address and the groups; nothing else. */
  lemma AddressForms(shortAddress: bv8, groups: bv32, a: bv8, g: bv8, x: bv8)
    requires a < 0x40 && g < 0x20 && x >= 0xC0
    ensures AddressesTheDevice(0xFF, shortAddress, groups)
    ensures AddressesTheDevice(0xFD, shortAddress, groups) <==> shortAddress == NO_SHORT_ADDRESS
    ensures AddressesTheDevice((a << 1) | 1, shortAddress, groups) <==> a == shortAddress
    ensures AddressesTheDevice(0x80 | (g << 1) | 1, shortAddress, groups) <==> GroupBit(groups, g as nat)
    ensures x != 0xFF && x != 0xFD ==> !AddressesTheDevice(x, shortAddress, groups)
  {
    hide GroupBit;
    ShortForm(a);
    GroupForm(g);
    OtherForm(x);
  }

  lemma ShortForm(a: bv8)
    requires a < 0x40
    ensures var x := (a << 1) | 1; x != 0xFF && x != 0xFD && x & 0x80 == 0 && (x >> 1) & 0x3F == a
  {
  }

  lemma GroupForm(g: bv8)
    requires g < 0x20
    ensures var x := 0x80 | (g << 1) | 1;
            x != 0xFF && x != 0xFD && x & 0x80 != 0 && x & 0xC0 == 0x80 && (x >> 1) & 0x1F == g
  {
  }

  lemma OtherForm(x: bv8)
    requires 0xC0 <= x
    ensures x & 0x80 != 0 && x & 0xC0 != 0x80
  {
  }

  /** The entry a query asks for. */
  function EntryIndex(q: Query, shortAddress: bv8, groups: bv32): (i: Option<nat>)
    ensures i.Some? ==> i.value < ANSWER_ENTRIES
  {
    if q.address == 0xC1 then
      if q.instance == 0x03 then Some(COMPARE_ENTRY)
      else if q.instance == 0x09 then Some(VERIFY_SHORT_ADDRESS_ENTRY)
      else if q.instance == 0x0A then Some(QUERY_SHORT_ADDRESS_ENTRY)
      else None
    else if q.address & 0x01 == 0 || q.instance != 0xFE || !AddressesTheDevice(q.address, shortAddress, groups) then None
    else
      var index := q.opcode as int - DEVICE_QUERY_FIRST_OPCODE;
      if index < 0 || index >= DEVICE_QUERY_ENTRIES then None else Some(index)
  }

  /** The half of an entry that counts while the lease lives, or after it lapsed. */
  function EntryAnswer(index: nat, word: bv32, q: Query, shortAddress: bv8, leaseAlive: bool): Option<bv8> {
    if index == VERIFY_SHORT_ADDRESS_ENTRY && q.opcode != shortAddress then None
    else
      var half := if leaseAlive then word else word >> 16;
      if half & ENTRY_PRESENT == 0 then None else Some(LowByte(half))
  }

  function LowByte(w: bv32): bv8 {
    var b := w & 0xFF;
    assert b < 0x100;
    b as bv8
  }

  // ---- Entries ----

  function Half(answer: Option<bv8>): bv32 {
    match answer
    case Some(b) => ENTRY_PRESENT | (b as bv32)
    case None => 0
  }

  function ByLease(alive: Option<bv8>, lapsed: Option<bv8>): bv32 {
    Half(alive) | (Half(lapsed) << 16)
  }

  lemma HalfReads(answer: Option<bv8>)
    ensures var h := Half(answer);
            && h < 0x200 && (answer.Some? ==> h & ENTRY_PRESENT != 0 && LowByte(h) == answer.value)
            && (answer.None? ==> h & ENTRY_PRESENT == 0)
  {
    if answer.Some? {
      var b := answer.value as bv32;
      assert b < 0x100;
      assert (ENTRY_PRESENT | b) & 0xFF == b;
    }
  }

  lemma HalvesApart(a: bv32, b: bv32)
    requires a < 0x200 && b < 0x200
    ensures var w := a | (b << 16);
            && w & ENTRY_PRESENT == a & ENTRY_PRESENT && w & 0xFF == a & 0xFF && w >> 16 == b
  {
  }

  /** An entry keeps its two answers apart. */
  lemma EntryRoundTrip(index: nat, alive: Option<bv8>, lapsed: Option<bv8>, q: Query, shortAddress: bv8, leaseAlive: bool)
    requires index == VERIFY_SHORT_ADDRESS_ENTRY ==> q.opcode == shortAddress
    ensures EntryAnswer(index, ByLease(alive, lapsed), q, shortAddress, leaseAlive) == if leaseAlive then alive else lapsed
  {
    hide Half;
    HalfReads(alive);
    HalfReads(lapsed);
    HalvesApart(Half(alive), Half(lapsed));
  }

  // ---- The lookup ----

  /** One publish: what the table was then, which capture it accounts for, and when. */
  datatype Image = Image(accountsFor: nat, publishedTick: nat, shortAddress: bv8, groups: bv32, entries: seq<bv32>)

  predicate ImageOk(i: Image) {
    |i.entries| == ANSWER_ENTRIES
  }

  datatype Lookup = NotPublished | NotAddressed | Behind | Torn | Silent | LeaseLapsed | Answer(value: bv8)

  /** What was read of the live copy. */
  datatype LiveRead = LiveRead(torn: bool, accountsFor: nat, publishedTick: nat, shortAddress: bv8, index: Option<nat>, word: bv32)

  /** Tick counters are 32 bits wide. */
  function TickDiff(a: nat, b: nat): nat {
    (a - b) % TICK_LIMIT
  }

  predicate LeaseAlive(until: nat, now: nat) {
    0 < TickDiff(until, now) <= ANSWER_LEASE_MAX_TICKS
  }

  function Decide(read: Option<LiveRead>, q: Query, previous: nat, now: nat, leaseAlive: bool): Lookup {
    match read
    case None => NotPublished
    case Some(r) =>
      if r.torn then Torn
      else if r.index.None? then NotAddressed
      else if r.accountsFor != previous || TickDiff(now, r.publishedTick) > TABLE_MAX_AGE_TICKS then Behind
      else
        match EntryAnswer(r.index.value, r.word, q, r.shortAddress, leaseAlive)
        case Some(a) => Answer(a)
        case None =>
          if !leaseAlive && EntryAnswer(r.index.value, r.word, q, r.shortAddress, true).Some? then LeaseLapsed else Silent
  }

  // ---- What a publish says: the reference the lookup is held against ----

  /** What a frame asks of this device. */
  datatype Asked = Device(opcode: bv8) | Compare | VerifyShortAddress | QueryShortAddress

  /** Section 11 of IEC 62386-103: the device queries, and the special commands that are answered. */
  function AskedBy(q: Query, shortAddress: bv8, groups: bv32): Option<Asked> {
    match (q.address, q.instance)
    case (0xC1, 0x03) => Some(Compare)
    case (0xC1, 0x09) => if q.opcode == shortAddress then Some(VerifyShortAddress) else None
    case (0xC1, 0x0A) => Some(QueryShortAddress)
    case (0xC1, _) => None
    case (address, 0xFE) =>
      if address & 1 == 1 && AddressesTheDevice(address, shortAddress, groups) && 0x30 <= q.opcode <= 0x4F
      then Some(Device(q.opcode)) else None
    case _ => None
  }

  /** The word a publish has for what is asked. */
  function WordFor(entries: seq<bv32>, asked: Asked): bv32
    requires |entries| == 35 && (asked.Device? ==> 0x30 <= asked.opcode <= 0x4F)
  {
    match asked
    case Device(opcode) => entries[opcode as int - 0x30]
    case Compare => entries[32]
    case VerifyShortAddress => entries[33]
    case QueryShortAddress => entries[34]
  }

  function AnswerIn(word: bv32, leaseAlive: bool): Option<bv8> {
    var half := if leaseAlive then word & 0x1FF else (word >> 16) & 0x1FF;
    if half >= 0x100 then Some(LowByte(half)) else None
  }

  /** A publish speaks for 100 ms, and only to the query after the capture it accounts for. */
  function Says(i: Image, q: Query, previous: nat, now: nat, leaseAlive: bool): Option<bv8>
    requires ImageOk(i)
  {
    var asked := AskedBy(q, i.shortAddress, i.groups);
    if asked.Some? && i.accountsFor == previous && (now - i.publishedTick) % 0x1_0000_0000 * 104 <= 100_000 then
      AnswerIn(WordFor(i.entries, asked.value), leaseAlive)
    else None
  }

  /** Every entry holds the two answers `f` has for what it is asked. */
  ghost predicate FilledBy(entries: seq<bv32>, f: Asked -> (Option<bv8>, Option<bv8>)) {
    && |entries| == ANSWER_ENTRIES
    && (forall opcode: bv8 | 0x30 <= opcode <= 0x4F :: Pair(entries[opcode as int - 0x30], f(Device(opcode))))
    && Pair(entries[32], f(Compare)) && Pair(entries[33], f(VerifyShortAddress)) && Pair(entries[34], f(QueryShortAddress))
  }

  predicate Pair(word: bv32, answers: (Option<bv8>, Option<bv8>)) {
    word == ByLease(answers.0, answers.1)
  }

  lemma AnswerInPair(word: bv32, answers: (Option<bv8>, Option<bv8>), leaseAlive: bool)
    requires Pair(word, answers)
    ensures AnswerIn(word, leaseAlive) == if leaseAlive then answers.0 else answers.1
  {
    hide Half, LowByte;
    HalfReads(answers.0);
    HalfReads(answers.1);
    HalvesMask(Half(answers.0), Half(answers.1));
    PresentBit(Half(answers.0));
    PresentBit(Half(answers.1));
  }

  lemma HalvesMask(a: bv32, b: bv32)
    requires a < 0x200 && b < 0x200
    ensures (a | (b << 16)) & 0x1FF == a && ((a | (b << 16)) >> 16) & 0x1FF == b
  {
  }

  lemma PresentBit(a: bv32)
    requires a < 0x200
    ensures a & ENTRY_PRESENT != 0 <==> a >= 0x100
  {
  }

  /** A table filled by what is asked answers what it was filled with, and nothing that is not asked. */
  lemma FilledTableAnswers(i: Image, f: Asked -> (Option<bv8>, Option<bv8>), q: Query, previous: nat, now: nat, leaseAlive: bool)
    requires FilledBy(i.entries, f)
    requires i.accountsFor == previous && (now - i.publishedTick) % 0x1_0000_0000 * 104 <= 100_000
    ensures match AskedBy(q, i.shortAddress, i.groups)
            case Some(asked) =>
              Says(i, q, previous, now, leaseAlive) == if leaseAlive then f(asked).0 else f(asked).1
            case None => Says(i, q, previous, now, leaseAlive).None?
  {
    hide Pair, AnswerIn, AddressesTheDevice;
    var asked := AskedBy(q, i.shortAddress, i.groups);
    if asked.Some? {
      AnswerInPair(WordFor(i.entries, asked.value), f(asked.value), leaseAlive);
    }
  }

  /** The entry the lookup takes is the one for what is asked; a VERIFY of another address has none. */
  lemma EntryIsForTheQuery(entries: seq<bv32>, q: Query, shortAddress: bv8, groups: bv32, leaseAlive: bool)
    requires |entries| == ANSWER_ENTRIES
    ensures var i, asked := EntryIndex(q, shortAddress, groups), AskedBy(q, shortAddress, groups);
            && (asked.Some? ==> i.Some? && entries[i.value] == WordFor(entries, asked.value))
            && (i.Some? ==>
                  EntryAnswer(i.value, entries[i.value], q, shortAddress, leaseAlive)
                  == if asked.Some? then AnswerIn(WordFor(entries, asked.value), leaseAlive) else None)
  {
    hide AddressesTheDevice, AnswerIn, EntryAnswer;
    CommandBit(q.address);
    OpcodeRange(q.opcode);
    var i := EntryIndex(q, shortAddress, groups);
    if i.Some? {
      AnswerFromHalf(i.value, entries[i.value], q, shortAddress, leaseAlive);
    }
  }

  lemma CommandBit(address: bv8)
    ensures address & 1 == 0 || address & 1 == 1
  {
  }

  lemma OpcodeRange(opcode: bv8)
    ensures 0x30 <= opcode <= 0x4F <==> 0 <= opcode as int - DEVICE_QUERY_FIRST_OPCODE < DEVICE_QUERY_ENTRIES
  {
  }

  lemma AnswerFromHalf(index: nat, word: bv32, q: Query, shortAddress: bv8, leaseAlive: bool)
    ensures EntryAnswer(index, word, q, shortAddress, leaseAlive)
         == if index == VERIFY_SHORT_ADDRESS_ENTRY && q.opcode != shortAddress then None else AnswerIn(word, leaseAlive)
  {
    HalfIsMasked(word);
    HalfIsMasked(word >> 16);
  }

  lemma HalfIsMasked(w: bv32)
    ensures w & ENTRY_PRESENT != 0 <==> w & 0x1FF >= 0x100
    ensures LowByte(w & 0x1FF) == LowByte(w)
  {
    assert (w & 0x1FF) & 0xFF == w & 0xFF;
  }

  /** A read is whole when all of it comes from one publish. */
  predicate WholeOf(r: LiveRead, i: Image, q: Query)
    requires ImageOk(i)
  {
    && r.accountsFor == i.accountsFor && r.publishedTick == i.publishedTick && r.shortAddress == i.shortAddress
    && r.index == EntryIndex(q, i.shortAddress, i.groups)
    && (r.index.Some? ==> r.word == i.entries[r.index.value])
  }

  /** A whole, untorn read answers exactly what that publish says. */
  lemma WholeReadAnswers(r: LiveRead, i: Image, q: Query, previous: nat, now: nat, leaseAlive: bool, v: bv8)
    requires ImageOk(i) && WholeOf(r, i, q) && !r.torn
    ensures Decide(Some(r), q, previous, now, leaseAlive) == Answer(v) <==> Says(i, q, previous, now, leaseAlive) == Some(v)
  {
    hide EntryAnswer, EntryIndex, AskedBy, AnswerIn, WordFor;
    EntryIsForTheQuery(i.entries, q, i.shortAddress, i.groups, leaseAlive);
    AgeInTicks(now, i.publishedTick);
  }

  lemma AgeInTicks(now: nat, publishedTick: nat)
    ensures TickDiff(now, publishedTick) <= TABLE_MAX_AGE_TICKS <==> (now - publishedTick) % 0x1_0000_0000 * 104 <= 100_000
  {
  }

  // ---- Filling and leases ----

  /** Outside the range of device queries nothing is set. */
  function SetDeviceQuery(i: Image, opcode: bv8, word: bv32): (Image, bool)
    requires ImageOk(i)
  {
    var index := opcode as int - DEVICE_QUERY_FIRST_OPCODE;
    if 0 <= index < DEVICE_QUERY_ENTRIES then (i.(entries := i.entries[index := word]), true) else (i, false)
  }

  /** What was set for an opcode is what its queries are answered, and no other answer changes. */
  lemma SetIsAnswered(i: Image, opcode: bv8, alive: Option<bv8>, lapsed: Option<bv8>, q: Query, previous: nat, now: nat,
                      leaseAlive: bool)
    requires ImageOk(i)
    ensures var (j, ok) := SetDeviceQuery(i, opcode, ByLease(alive, lapsed));
            && ImageOk(j) && (ok <==> 0x30 <= opcode <= 0x4F)
            && Says(j, q, previous, now, leaseAlive)
               == if AskedBy(q, i.shortAddress, i.groups) == Some(Device(opcode)) && i.accountsFor == previous
                     && (now - i.publishedTick) % 0x1_0000_0000 * 104 <= 100_000
                  then (if leaseAlive then alive else lapsed)
                  else Says(i, q, previous, now, leaseAlive)
  {
    hide AnswerIn, AddressesTheDevice, ByLease;
    OpcodeRange(opcode);
    var asked := AskedBy(q, i.shortAddress, i.groups);
    if asked.Some? && asked.value.Device? {
      OpcodesApart(asked.value.opcode, opcode);
    }
    AnswerInPair(ByLease(alive, lapsed), (alive, lapsed), leaseAlive);
  }

  lemma OpcodesApart(a: bv8, b: bv8)
    ensures a as int == b as int <==> a == b
  {
  }

  /** A lease runs for its time, three seconds at most. */
  function LeaseTicks(remainingMs: nat): nat {
    (if remainingMs < LEASE_TTL_MS then remainingMs else LEASE_TTL_MS) * 1_000 / PHY_TICK_US
  }

  function LeaseUntil(now: nat, remainingMs: nat): nat {
    (now + LeaseTicks(remainingMs)) % TICK_LIMIT
  }

  /** A lease lives for its ticks and not longer, until the counter comes round to it again. */
  lemma LeaseLasts(now: nat, remainingMs: nat, elapsed: nat)
    requires elapsed < TICK_LIMIT - ANSWER_LEASE_MAX_TICKS
    ensures LeaseAlive(LeaseUntil(now, remainingMs), (now + elapsed) % TICK_LIMIT)
       <==> elapsed < (if remainingMs < 3000 then remainingMs else 3000) * 1_000 / 104
  {
    var d := LeaseTicks(remainingMs);
    LeaseIsBounded(remainingMs);
    DiffOfSums(now, d, elapsed);
  }

  lemma LeaseIsBounded(remainingMs: nat)
    ensures LeaseTicks(remainingMs) <= ANSWER_LEASE_MAX_TICKS
    ensures LeaseTicks(remainingMs) == (if remainingMs < 3000 then remainingMs else 3000) * 1_000 / 104
  {
  }

  lemma DiffOfSums(now: nat, d: nat, e: nat)
    requires d <= ANSWER_LEASE_MAX_TICKS && e < TICK_LIMIT - ANSWER_LEASE_MAX_TICKS
    ensures TickDiff((now + d) % TICK_LIMIT, (now + e) % TICK_LIMIT) == if d >= e then d - e else d - e + TICK_LIMIT
  {
    var base := now % TICK_LIMIT;
    CounterAdds(now, d);
    CounterAdds(now, e);
    CounterWraps((now + d) % TICK_LIMIT - (now + e) % TICK_LIMIT);
  }

  lemma CounterAdds(now: nat, d: nat)
    requires d < TICK_LIMIT
    ensures (now + d) % TICK_LIMIT == var sum := now % TICK_LIMIT + d; if sum < TICK_LIMIT then sum else sum - TICK_LIMIT
  {
    var q := now / TICK_LIMIT;
    assert now + d == q * TICK_LIMIT + (now % TICK_LIMIT + d);
  }

  lemma CounterWraps(x: int)
    requires -TICK_LIMIT < x < TICK_LIMIT
    ensures x % TICK_LIMIT == if x < 0 then x + TICK_LIMIT else x
  {
  }
}
