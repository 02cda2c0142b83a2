/** Where each slice lives on flash (slice_layout.rs). */
module SliceLayout {
  import opened Wrappers

  datatype SliceKey =
    | Adapters
    | VirtualLamps(adapterId: u8)
    | Groups(adapterId: u8)
    | PhysicalDevices(adapterId: u8)
    | Scene(adapterId: u8, sceneId: u8)
    | ControllerSettings
    | HclSchedules
    | PollerSettings
    | InputDevices(bank: u8)
    | Rules(bank: u8)
    | HomeAssistantSettings
    | DaliSettings
    | RedundancySettings
    | Policies
    | PhysicalDeviceBank(adapterId: u8, bank: u8)

  const SECTOR_BYTES := 4096
  const MAX_ADAPTERS := 8
  const SCENES_PER_ADAPTER := 16
  const SMALL_SLOTS_PER_ADAPTER := 2 + SCENES_PER_ADAPTER
  const LARGE_SLOT_COUNT := MAX_ADAPTERS
  const PD_BANKS_PER_ADAPTER := 16
  const LEADING_GLOBAL_SMALL_SLOTS := 2
  const TRAILING_GLOBAL_SMALL_SLOTS := 14
  const TRAILING_GLOBAL_BASE := LEADING_GLOBAL_SMALL_SLOTS + MAX_ADAPTERS * SMALL_SLOTS_PER_ADAPTER
  const SMALL_SLOT_COUNT := TRAILING_GLOBAL_BASE + TRAILING_GLOBAL_SMALL_SLOTS
  const LARGE_BANK_BYTES := 8 * SECTOR_BYTES
  const SMALL_BANK_BYTES := SECTOR_BYTES
  const PD_BANK_BYTES := SECTOR_BYTES
  const LARGE_REGION_BYTES := LARGE_SLOT_COUNT * 2 * LARGE_BANK_BYTES
  const SMALL_REGION_END := LARGE_REGION_BYTES + SMALL_SLOT_COUNT * 2 * SMALL_BANK_BYTES
  const PD_BANK_SLOT_COUNT := MAX_ADAPTERS * PD_BANKS_PER_ADAPTER
  const LAYOUT_BYTES := SMALL_REGION_END + PD_BANK_SLOT_COUNT * 2 * PD_BANK_BYTES
  const BANK_HEADER_BYTES := 16
  const TOTAL_SLOT_COUNT := LARGE_SLOT_COUNT + SMALL_SLOT_COUNT + PD_BANK_SLOT_COUNT
  const INPUT_DEVICE_BANKS := 4
  const RULES_BANKS := 4

  /** One of the two banks of a slot. */
  type Bank = b: int | 0 <= b < 2

  datatype SlotGeometry = SlotGeometry(offset: nat, bankBytes: nat) {
    function BankOffset(bank: Bank): nat {
      if bank == 0 then offset else offset + bankBytes
    }
  }

  /** `None` when the key is no global slice; `Some(None)` when it is one without a slot. */
  function GlobalSlotIndex(key: SliceKey): Option<Option<nat>> {
    match key
    case Adapters => Some(Some(0))
    case ControllerSettings => Some(Some(1))
    case HclSchedules => Some(Some(TRAILING_GLOBAL_BASE))
    case PollerSettings => Some(Some(TRAILING_GLOBAL_BASE + 1))
    case HomeAssistantSettings => Some(Some(TRAILING_GLOBAL_BASE + 2))
    case DaliSettings => Some(Some(TRAILING_GLOBAL_BASE + 3))
    case InputDevices(bank) =>
      Some(if bank < INPUT_DEVICE_BANKS then Some(TRAILING_GLOBAL_BASE + 4 + bank) else None)
    case Rules(bank) =>
      Some(if bank < RULES_BANKS then Some(TRAILING_GLOBAL_BASE + 4 + INPUT_DEVICE_BANKS + bank) else None)
    case RedundancySettings => Some(Some(TRAILING_GLOBAL_BASE + 4 + INPUT_DEVICE_BANKS + RULES_BANKS))
    case Policies => Some(Some(TRAILING_GLOBAL_BASE + 5 + INPUT_DEVICE_BANKS + RULES_BANKS))
    case _ => None
  }

  function Bounded(index: nat): Option<nat> {
    if index < SMALL_SLOT_COUNT then Some(index) else None
  }

  function AdapterSlot(adapter: u8, withinAdapter: nat): Option<nat> {
    if adapter >= MAX_ADAPTERS then None
    else Some(LEADING_GLOBAL_SMALL_SLOTS + adapter * SMALL_SLOTS_PER_ADAPTER + withinAdapter)
  }

  function SmallSlotIndex(key: SliceKey): Option<nat> {
    match GlobalSlotIndex(key)
    case Some(Some(index)) => Bounded(index)
    case Some(None) => None
    case None =>
      match key
      case VirtualLamps(adapter) => AdapterSlot(adapter, 0)
      case Groups(adapter) => AdapterSlot(adapter, 1)
      case Scene(adapter, scene) =>
        if scene >= SCENES_PER_ADAPTER then None else AdapterSlot(adapter, 2 + scene)
      case _ => None
  }

  function SlotIndex(key: SliceKey): Option<nat> {
    match key
    case PhysicalDevices(adapter) => if adapter < MAX_ADAPTERS then Some(adapter) else None
    case PhysicalDeviceBank(adapter, bank) =>
      if adapter < MAX_ADAPTERS && bank < PD_BANKS_PER_ADAPTER
      then Some(LARGE_SLOT_COUNT + SMALL_SLOT_COUNT + adapter * PD_BANKS_PER_ADAPTER + bank)
      else None
    case _ =>
      match SmallSlotIndex(key)
      case Some(index) => Some(LARGE_SLOT_COUNT + index)
      case None => None
  }

  function GeometryOf(key: SliceKey): Option<SlotGeometry> {
    match key
    case PhysicalDevices(adapter) =>
      if adapter < MAX_ADAPTERS
      then Some(SlotGeometry(adapter * 2 * LARGE_BANK_BYTES, LARGE_BANK_BYTES))
      else None
    case PhysicalDeviceBank(adapter, bank) =>
      if adapter < MAX_ADAPTERS && bank < PD_BANKS_PER_ADAPTER
      then Some(SlotGeometry(
        SMALL_REGION_END + (adapter * PD_BANKS_PER_ADAPTER + bank) * 2 * PD_BANK_BYTES, PD_BANK_BYTES))
      else None
    case _ =>
      match SmallSlotIndex(key)
      case Some(index) => Some(SlotGeometry(LARGE_REGION_BYTES + index * 2 * SMALL_BANK_BYTES, SMALL_BANK_BYTES))
      case None => None
  }

  datatype BankChoice = BankChoice(keep: Option<Bank>, target: Bank)

  function ChooseBank(proved: Option<Bank>, newestHeader: Option<Bank>): BankChoice {
    var keep := if proved.Some? then proved else newestHeader;
    BankChoice(keep, if keep.None? then 0 else 1 - keep.value)
  }

  // ---- The layout is a partition of the flash, one slot a key ----

  /** The key whose slot has the given index: the reading of the layout backwards. */
  function KeyAt(index: nat): SliceKey
    requires index < TOTAL_SLOT_COUNT
  {
    if index < LARGE_SLOT_COUNT then PhysicalDevices(index)
    else if index < LARGE_SLOT_COUNT + SMALL_SLOT_COUNT then SmallKeyAt(index - LARGE_SLOT_COUNT)
    else
      var i := index - LARGE_SLOT_COUNT - SMALL_SLOT_COUNT;
      PhysicalDeviceBank(i / PD_BANKS_PER_ADAPTER, i % PD_BANKS_PER_ADAPTER)
  }

  function SmallKeyAt(i: nat): SliceKey
    requires i < SMALL_SLOT_COUNT
  {
    if i == 0 then Adapters
    else if i == 1 then ControllerSettings
    else if i < TRAILING_GLOBAL_BASE then
      var j := i - LEADING_GLOBAL_SMALL_SLOTS;
      var adapter, within := j / SMALL_SLOTS_PER_ADAPTER, j % SMALL_SLOTS_PER_ADAPTER;
      if within == 0 then VirtualLamps(adapter)
      else if within == 1 then Groups(adapter)
      else Scene(adapter, within - 2)
    else
      var k := i - TRAILING_GLOBAL_BASE;
      if k == 0 then HclSchedules
      else if k == 1 then PollerSettings
      else if k == 2 then HomeAssistantSettings
      else if k == 3 then DaliSettings
      else if k < 8 then InputDevices(k - 4)
      else if k < 12 then Rules(k - 8)
      else if k == 12 then RedundancySettings
      else Policies
  }

  /** Where the slot with a given index starts, and how large its banks are. */
  function GeometryAt(index: nat): SlotGeometry {
    if index < LARGE_SLOT_COUNT then SlotGeometry(index * 2 * LARGE_BANK_BYTES, LARGE_BANK_BYTES)
    else SlotGeometry(LARGE_REGION_BYTES + (index - LARGE_SLOT_COUNT) * 2 * SECTOR_BYTES, SECTOR_BYTES)
  }

  /** The index of the slot that owns a byte of the layout. */
  function IndexOfByte(offset: nat): nat {
    if offset < LARGE_REGION_BYTES then offset / (2 * LARGE_BANK_BYTES)
    else LARGE_SLOT_COUNT + (offset - LARGE_REGION_BYTES) / (2 * SECTOR_BYTES)
  }

  predicate Owns(g: SlotGeometry, offset: nat) {
    g.offset <= offset < g.offset + 2 * g.bankBytes
  }

  /** An adapter's slot reads back as its adapter and its place within it. */
  lemma AdapterSlotReadsBack(adapter: nat, within: nat)
    requires adapter < MAX_ADAPTERS && within < SMALL_SLOTS_PER_ADAPTER
    ensures (adapter * SMALL_SLOTS_PER_ADAPTER + within) / SMALL_SLOTS_PER_ADAPTER == adapter
    ensures (adapter * SMALL_SLOTS_PER_ADAPTER + within) % SMALL_SLOTS_PER_ADAPTER == within
  {
  }

  lemma SmallIndexReadsBack(key: SliceKey)
    requires SmallSlotIndex(key).Some?
    ensures SmallSlotIndex(key).value < SMALL_SLOT_COUNT
    ensures SmallKeyAt(SmallSlotIndex(key).value) == key
  {
    if GlobalSlotIndex(key).None? {
      var within := match key
        case VirtualLamps(_) => 0
        case Groups(_) => 1
        case Scene(_, scene) => 2 + scene;
      AdapterSlotReadsBack(key.adapterId, within);
    }
  }

  lemma SmallKeyReadsBack(i: nat)
    requires i < SMALL_SLOT_COUNT
    ensures SmallSlotIndex(SmallKeyAt(i)) == Some(i)
  {
    hide AdapterSlot;
    if LEADING_GLOBAL_SMALL_SLOTS <= i < TRAILING_GLOBAL_BASE {
      AdapterKeyReadsBack(i - LEADING_GLOBAL_SMALL_SLOTS);
    }
  }

  lemma AdapterKeyReadsBack(j: nat)
    requires j < MAX_ADAPTERS * SMALL_SLOTS_PER_ADAPTER
    ensures j / SMALL_SLOTS_PER_ADAPTER < MAX_ADAPTERS
    ensures AdapterSlot(j / SMALL_SLOTS_PER_ADAPTER, j % SMALL_SLOTS_PER_ADAPTER)
         == Some(LEADING_GLOBAL_SMALL_SLOTS + j)
  {
  }

  /** A key has a slot exactly when it has an index, and the index alone fixes the place. */
  lemma GeometryByIndex(key: SliceKey)
    ensures GeometryOf(key).Some? <==> SlotIndex(key).Some?
    ensures SlotIndex(key).Some? ==>
              SlotIndex(key).value < TOTAL_SLOT_COUNT
              && KeyAt(SlotIndex(key).value) == key
              && GeometryOf(key) == Some(GeometryAt(SlotIndex(key).value))
  {
    match key
    case PhysicalDevices(_) =>
    case PhysicalDeviceBank(adapter, bank) =>
      DeviceBankReadsBack(adapter, bank);
    case _ =>
      SmallKeyGeometry(key);
  }

  lemma DeviceBankReadsBack(adapter: u8, bank: u8)
    ensures var key := PhysicalDeviceBank(adapter, bank);
            SlotIndex(key).Some? ==>
              SlotIndex(key).value < TOTAL_SLOT_COUNT
              && KeyAt(SlotIndex(key).value) == key
              && GeometryOf(key) == Some(GeometryAt(SlotIndex(key).value))
  {
    if adapter < MAX_ADAPTERS && bank < PD_BANKS_PER_ADAPTER {
      assert (adapter * PD_BANKS_PER_ADAPTER + bank) / PD_BANKS_PER_ADAPTER == adapter;
      assert (adapter * PD_BANKS_PER_ADAPTER + bank) % PD_BANKS_PER_ADAPTER == bank;
    }
  }

  lemma SmallKeyGeometry(key: SliceKey)
    requires !key.PhysicalDevices? && !key.PhysicalDeviceBank?
    ensures SlotIndex(key).Some? <==> SmallSlotIndex(key).Some?
    ensures SlotIndex(key).Some? ==>
              SlotIndex(key).value < TOTAL_SLOT_COUNT
              && KeyAt(SlotIndex(key).value) == key
              && GeometryOf(key) == Some(GeometryAt(SlotIndex(key).value))
  {
    var small := SmallSlotIndex(key);
    if small.Some? {
      SmallIndexReadsBack(key);
      assert SlotIndex(key) == Some(LARGE_SLOT_COUNT + small.value);
    }
  }

  /** Every index below the total is the index of some key. */
  lemma IndexOfKeyAt(index: nat)
    requires index < TOTAL_SLOT_COUNT
    ensures SlotIndex(KeyAt(index)) == Some(index)
  {
    if LARGE_SLOT_COUNT <= index < LARGE_SLOT_COUNT + SMALL_SLOT_COUNT {
      SmallKeyReadsBack(index - LARGE_SLOT_COUNT);
    }
  }

  /** Slots tile the layout: each byte below LAYOUT_BYTES is owned by exactly one key, and no key owns one above. */
  lemma EveryByteHasOneOwner(offset: nat)
    ensures offset < LAYOUT_BYTES <==> IndexOfByte(offset) < TOTAL_SLOT_COUNT
    ensures forall key: SliceKey | GeometryOf(key).Some? ::
              Owns(GeometryOf(key).value, offset) <==> SlotIndex(key) == Some(IndexOfByte(offset))
    ensures offset < LAYOUT_BYTES ==> GeometryOf(KeyAt(IndexOfByte(offset))).Some?
                                      && Owns(GeometryOf(KeyAt(IndexOfByte(offset))).value, offset)
  {
    forall key: SliceKey | GeometryOf(key).Some?
      ensures Owns(GeometryOf(key).value, offset) <==> SlotIndex(key) == Some(IndexOfByte(offset))
    {
      GeometryByIndex(key);
      OwnerIndex(SlotIndex(key).value, offset);
    }
    if offset < LAYOUT_BYTES {
      IndexOfKeyAt(IndexOfByte(offset));
      GeometryByIndex(KeyAt(IndexOfByte(offset)));
    }
  }

  lemma OwnerIndex(index: nat, offset: nat)
    requires index < TOTAL_SLOT_COUNT
    ensures Owns(GeometryAt(index), offset) <==> index == IndexOfByte(offset)
  {
  }

  /** No two slices share flash. */
  lemma DistinctKeysAreDisjoint(a: SliceKey, b: SliceKey, offset: nat)
    requires a != b && GeometryOf(a).Some? && GeometryOf(b).Some?
    requires Owns(GeometryOf(a).value, offset)
    ensures !Owns(GeometryOf(b).value, offset)
    ensures SlotIndex(a) != SlotIndex(b)
  {
    EveryByteHasOneOwner(offset);
    GeometryByIndex(a);
    GeometryByIndex(b);
  }
}
